/** Stage resolution of `Core::Shader` (src/core/shader.cpp): the stage a
    shader file is compiled for, taken from its extension, and the glslang
    language each supported stage maps to. Reading and compiling the file
    are not modelled. */
module CoreShader {
  import opened Wrappers
  import opened Shader
  import Text

  const Dot: set<char> := {'.'}

  /** `path.substr(path.find_last_of('.') + 1)`: the whole path when it has
      no dot. */
  function Extension(path: string): string
  {
    Text.AfterLast(path, Dot)
  }

  /** `path.substr(0, path.find_last_of('.'))`. */
  function WithoutExtension(path: string): string
  {
    Text.BeforeLast(path, Dot)
  }

  /** The `glslExtensions` table. */
  function GlslStage(extension: string): (r: Option<Stage>)
    ensures r.Some? <==> extension in {"vert", "tesc", "tese", "geom", "frag", "comp", "task", "mesh"}
  {
    match extension
    case "vert" => Some(VERTEX)
    case "tesc" => Some(TESSELLATION_CONTROL)
    case "tese" => Some(TESSELLATION_EVALUATION)
    case "geom" => Some(GEOMETRY)
    case "frag" => Some(FRAGMENT)
    case "comp" => Some(COMPUTE)
    case "task" => Some(TASK)
    case "mesh" => Some(MESH)
    case _ => None
  }

  /** The table is one-to-one: two extensions with one stage are equal. */
  lemma GlslStageInjective(a: string, b: string)
    requires GlslStage(a).Some? && GlslStage(a) == GlslStage(b)
    ensures a == b
  {
  }

  /** What the constructor does with `path`: a `.spv` file takes its stage
      from the extension before `.spv`, any other file from its own
      extension; an extension outside the table throws. The stage argument
      is overwritten in every case that does not throw. */
  function ResolveStage(path: string): (r: Result<Stage>)
    ensures Extension(path) == "spv" ==>
              (r.Ok? <==> GlslStage(Extension(WithoutExtension(path))).Some?)
    ensures Extension(path) != "spv" ==> (r.Ok? <==> GlslStage(Extension(path)).Some?)
    ensures Extension(path) == "spv" && r.Ok? ==> Some(r.value) == GlslStage(Extension(WithoutExtension(path)))
    ensures Extension(path) != "spv" && r.Ok? ==> Some(r.value) == GlslStage(Extension(path))
    ensures r.Ok? ==> exists e :: GlslStage(e) == Some(r.value)
  {
    var extension := Extension(path);
    if extension == "spv" then
      var inner := Extension(WithoutExtension(path));
      match GlslStage(inner)
      case None => Err("Unsupported shader extension: " + inner)
      case Some(stage) => Ok(stage)
    else
      match GlslStage(extension)
      case None => Err("Unsupported shader extension: " + extension)
      case Some(stage) => Ok(stage)
  }

  /** A compiled and an uncompiled file of one shader resolve to one stage. */
  lemma SpirVMatchesSource(stem: string, extension: string)
    requires '.' !in extension && extension != "spv"
    ensures ResolveStage(stem + "." + extension + ".spv") == ResolveStage(stem + "." + extension)
  {
    var source := stem + "." + extension;
    var compiled := stem + "." + extension + ".spv";
    assert compiled == source + "." + "spv";
    Text.SplitJoin(source, '.', "spv", Dot);
    Text.SplitJoin(stem, '.', extension, Dot);
    assert Extension(compiled) == "spv" && WithoutExtension(compiled) == source;
    assert Extension(source) == extension;
  }

  /** glslang's shader languages. */
  datatype EShLanguage = LangVertex | LangTessControl | LangTessEvaluation | LangGeometry
                       | LangFragment | LangCompute | LangTask | LangMesh

  /** `ShaderStageToEShLanguage`: the eight stages glslang compiles map to
      their language; any other stage throws. */
  function ToEShLanguage(stage: Stage): (r: Result<EShLanguage>)
    ensures r.Ok? <==> stage in {VERTEX, TESSELLATION_CONTROL, TESSELLATION_EVALUATION, GEOMETRY,
                                 FRAGMENT, COMPUTE, TASK, MESH}
  {
    if stage == VERTEX then Ok(LangVertex)
    else if stage == TESSELLATION_CONTROL then Ok(LangTessControl)
    else if stage == TESSELLATION_EVALUATION then Ok(LangTessEvaluation)
    else if stage == GEOMETRY then Ok(LangGeometry)
    else if stage == FRAGMENT then Ok(LangFragment)
    else if stage == COMPUTE then Ok(LangCompute)
    else if stage == TASK then Ok(LangTask)
    else if stage == MESH then Ok(LangMesh)
    else Err("Unsupported shader stage")
  }

  /** The mapping is one-to-one, and every stage the extension table yields
      has a language. */
  lemma LanguagesDistinct(a: Stage, b: Stage, extension: string)
    ensures ToEShLanguage(a).Ok? && ToEShLanguage(a) == ToEShLanguage(b) ==> a == b
    ensures GlslStage(extension).Some? ==> ToEShLanguage(GlslStage(extension).value).Ok?
  {
  }
}
