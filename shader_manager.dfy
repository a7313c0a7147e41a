/** The shader manager (`Shader::Manager`, src/shader/manager.h and
    src/shader/manager.cpp): a cache of shaders by path, the directory the
    shader browser starts in, and the static instance `Get` hands out.
    Reading and compiling a shader file are not modelled: a cached shader
    is its path and the stage its constructor resolves. */
module ShaderManager {
  import opened Wrappers
  import opened Shader
  import CoreShader

  /** A `Core::Shader` the cache owns. */
  class CachedShader {
    const path: string
    const stage: Stage

    constructor (path: string, stage: Stage)
      ensures this.path == path && this.stage == stage
    {
      this.path, this.stage := path, stage;
    }
  }

  class Manager {
    const defaultSearchPath: string
    var currentPath: string
    var shaders: map<string, CachedShader>

    /** Every cached shader was built from the path it is stored under,
        so one path never has two shaders. */
    ghost predicate Valid()
      reads this, shaders.Values
    {
      forall p :: p in shaders ==> shaders[p].path == p && CoreShader.ResolveStage(p) == Ok(shaders[p].stage)
    }

    /** The constructor as the source writes it: the current path starts
        at the default search path, and the static instance is left as it
        was. */
    constructor AsWritten(searchPath: string, slot: Slot)
      ensures defaultSearchPath == searchPath && currentPath == searchPath && shaders == map[]
      ensures Valid()
    {
      defaultSearchPath := searchPath;
      currentPath := searchPath;
      shaders := map[];
    }

    /** The constructor with the registration `Get` relies on: as above,
        and the new manager becomes the static instance. */
    constructor (searchPath: string, slot: Slot)
      modifies slot
      ensures defaultSearchPath == searchPath && currentPath == searchPath && shaders == map[]
      ensures Valid() && slot.instance == Some(this)
    {
      defaultSearchPath := searchPath;
      currentPath := searchPath;
      shaders := map[];
      new;
      slot.instance := Some(this);
    }

    /** `Get(path)`: the cached shader, or a new one built and cached; a
        path whose extension names no stage throws and caches nothing. */
    method Get(path: string) returns (r: Result<CachedShader>)
      requires Valid()
      modifies this`shaders
      ensures Valid()
      ensures path in old(shaders) ==> r == Ok(old(shaders)[path]) && shaders == old(shaders)
      ensures path !in old(shaders) && CoreShader.ResolveStage(path).Err? ==> r.Err? && shaders == old(shaders)
      ensures path !in old(shaders) && CoreShader.ResolveStage(path).Ok? ==>
        && r.Ok? && fresh(r.value) && shaders == old(shaders)[path := r.value]
      ensures r.Ok? ==> r.value.path == path && path in shaders && shaders[path] == r.value
    {
      if path in shaders {
        return Ok(shaders[path]);
      }
      match CoreShader.ResolveStage(path)
      case Err(msg) =>
        return Err(msg);
      case Ok(stage) =>
        var s := new CachedShader(path, stage);
        shaders := shaders[path := s];
        return Ok(s);
    }

    /** `Shader(path)`: the same as `Get`; the vertex stage it passes is
        overwritten by the constructor's own resolution. */
    method Shader(path: string) returns (r: Result<CachedShader>)
      requires Valid()
      modifies this`shaders
      ensures Valid()
      ensures path in old(shaders) ==> r == Ok(old(shaders)[path]) && shaders == old(shaders)
      ensures path !in old(shaders) && CoreShader.ResolveStage(path).Err? ==> r.Err? && shaders == old(shaders)
      ensures path !in old(shaders) && CoreShader.ResolveStage(path).Ok? ==>
        && r.Ok? && fresh(r.value) && shaders == old(shaders)[path := r.value]
      ensures r.Ok? ==> r.value.path == path && path in shaders && shaders[path] == r.value
    {
      r := Get(path);
    }

    /** `Path()`. */
    function Path(): (p: string)
      reads this
      ensures p == currentPath
    {
      currentPath
    }
  }

  /** The static `s_instance` slot. */
  class Slot {
    var instance: Option<Manager>

    constructor ()
      ensures instance == None
    {
      instance := None;
    }

    /** `Manager::Get()`: the instance, or a throw when none is set. */
    function Get(): (r: Result<Manager>)
      reads this
      ensures r.Ok? <==> instance.Some?
      ensures r.Ok? ==> r.value == instance.value
    {
      match instance
      case Some(m) => Ok(m)
      case None => Err("Shader Manager is not initialized")
    }
  }

  /** Nothing in the source sets the instance: a manager constructed as
      written leaves the slot empty, and `Get` throws after it. */
  method AsWrittenGetThrows() returns (r: Result<Manager>)
    ensures r.Err?
  {
    var slot := new Slot();
    var m := new Manager.AsWritten("shaders", slot);
    r := slot.Get();
  }

  /** With the registration, `Get` hands out the manager just made. */
  method RegisteredGetFinds() returns (r: Result<Manager>, m: Manager)
    ensures r == Ok(m) && m.currentPath == m.defaultSearchPath
  {
    var slot := new Slot();
    m := new Manager("shaders", slot);
    r := slot.Get();
  }
}
