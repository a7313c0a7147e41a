/** The cache of loaded script assemblies (`Scripting::Assembly`,
    src/scripting/assembly.h): assemblies are loaded once per name, the
    name being the file name up to its last '.'. Loading the image into
    the Mono runtime is not modelled; an assembly is known by the path it
    was loaded from. */
module ScriptAssembly {
  import Text

  /** A loaded assembly: the path its image was read from. */
  datatype Assembly = Assembly(path: string)

  /** `path.filename()`: what follows the last '/'. */
  function FileName(path: string): string
  {
    Text.AfterLast(path, {'/'})
  }

  /** The cache key `Load` computes: the file name up to its last '.'. */
  function Key(path: string): string
  {
    Text.BeforeLast(FileName(path), {'.'})
  }

  /** The assembly a `Load` of `path` hands out given the cache `m`, and
      the cache after it: the cached one when the key is present (the
      path is then not read), otherwise a new one stored under the key. */
  function Loaded(m: map<string, Assembly>, path: string): (r: (map<string, Assembly>, Assembly))
    ensures Key(path) in r.0 && r.0[Key(path)] == r.1
    ensures Key(path) in m ==> r.0 == m
    ensures Key(path) !in m ==> r.1 == Assembly(path) && r.0.Keys == m.Keys + {Key(path)}
    ensures forall k :: k in m ==> k in r.0 && r.0[k] == m[k]
  {
    var key := Key(path);
    if key in m then (m, m[key]) else (m[key := Assembly(path)], Assembly(path))
  }

  /** A second load of the same key changes nothing and hands out the
      assembly the first one did, whatever path it names. */
  lemma LoadIdempotent(m: map<string, Assembly>, path: string, again: string)
    requires Key(again) == Key(path)
    ensures Loaded(Loaded(m, path).0, again) == (Loaded(m, path).0, Loaded(m, path).1)
  {
  }

  /** A library file in any directory is cached under its bare name. */
  lemma KeyOfLibrary(dir: string, name: string)
    requires forall k :: 0 <= k < |name| ==> name[k] != '/' && name[k] != '.'
    ensures Key(dir + "/" + name + ".dll") == name
  {
    var file := name + ".dll";
    assert forall k :: 0 <= k < |file| ==> file[k] != '/';
    assert dir + "/" + name + ".dll" == dir + ['/'] + file;
    Text.SplitJoin(dir, '/', file, {'/'});
    assert file == name + ['.'] + "dll";
    Text.SplitJoin(name, '.', "dll", {'.'});
  }

  /** The static `s_assemblies` map. */
  class Cache {
    var assemblies: map<string, Assembly>

    constructor ()
      ensures assemblies == map[]
    {
      assemblies := map[];
    }

    /** `Load`: the cached assembly under the key, or a new one. */
    method Load(path: string) returns (a: Assembly)
      modifies this
      ensures (assemblies, a) == Loaded(old(assemblies), path)
    {
      var name := Key(path);
      if name in assemblies {
        return assemblies[name];
      }
      a := Assembly(path);
      assemblies := assemblies[name := a];
    }

    /** `Unload`: a present name is deleted and erased; an absent one
        only logs, which `found` reports. */
    method Unload(name: string) returns (found: bool)
      modifies this
      ensures found <==> name in old(assemblies)
      ensures assemblies == old(assemblies) - {name}
      ensures !found ==> assemblies == old(assemblies)
    {
      found := name in assemblies;
      if found {
        assemblies := assemblies - {name};
      }
    }

    /** `UnloadAll`: every assembly deleted, the cache left empty. */
    method UnloadAll()
      modifies this
      ensures assemblies == map[]
    {
      assemblies := map[];
    }

    /** `Get`: a `Load` of the name taken as a path. */
    method Get(name: string) returns (a: Assembly)
      modifies this
      ensures (assemblies, a) == Loaded(old(assemblies), name)
    {
      a := Load(name);
    }
  }

  /** Loading a new key and unloading it restores the cache. */
  lemma LoadThenUnload(m: map<string, Assembly>, path: string)
    requires Key(path) !in m
    ensures Loaded(m, path).0 - {Key(path)} == m
  {
  }
}
