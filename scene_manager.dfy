/** The scene manager (`ECS::SceneManager`, src/ecs/sceneManager.cpp):
    the scene currently loaded and a queue of deferred events run on the
    next update. An event is a step over the engine state `W` it acts
    on; the entity registry and the scene's own setup are not modelled. */
module SceneManager {
  import opened Wrappers

  /** A scene, by identity. */
  type SceneId = nat

  /** The state after running `events` in order from `w`. */
  function RunAll<W>(events: seq<W -> W>, w: W): W
  {
    if events == [] then w else events[|events| - 1](RunAll(events[..|events| - 1], w))
  }

  /** Running two queues one after the other is running their
      concatenation: events run in the order they were registered. */
  lemma {:induction false} RunAllAppend<W>(a: seq<W -> W>, b: seq<W -> W>, w: W)
    ensures RunAll(a + b, w) == RunAll(b, RunAll(a, w))
    decreases |b|
  {
    if b != [] {
      var b' := b[..|b| - 1];
      assert (a + b)[..|a + b| - 1] == a + b' && (a + b)[|a + b| - 1] == b[|b| - 1];
      RunAllAppend(a, b', w);
    } else {
      assert a + b == a;
    }
  }

  /** The static `s_instance` slot. */
  class Slot<W> {
    var instance: Option<Manager<W>>

    constructor ()
      ensures instance == None
    {
      instance := None;
    }

    /** `SceneManager::Get`: the instance, or a throw when none was
        constructed. */
    function Get(): (r: Result<Manager<W>>)
      reads this
      ensures r.Ok? <==> instance.Some?
      ensures r.Ok? ==> r.value == instance.value
    {
      match instance
      case Some(m) => Ok(m)
      case None => Err("SceneManager is not initialized.")
    }
  }

  class Manager<W> {
    var world: W
    var events: seq<W -> W>
    var loadedScene: Option<SceneId>

    /** The constructor: registers itself as the instance and starts a
        new scene, `first`; the queue starts empty. */
    constructor (slot: Slot<W>, w: W, first: SceneId)
      modifies slot
      ensures slot.instance == Some(this)
      ensures world == w && events == [] && loadedScene == Some(first)
    {
      world := w;
      events := [];
      loadedScene := Some(first);
      new;
      slot.instance := Some(this);
    }

    /** `GetLoadedScene`: the loaded scene, or a throw when there is none. */
    function GetLoadedScene(): (r: Result<SceneId>)
      reads this
      ensures r.Ok? <==> loadedScene.Some?
      ensures r.Ok? ==> r.value == loadedScene.value
    {
      match loadedScene
      case Some(s) => Ok(s)
      case None => Err("No scene is currently loaded.")
    }

    /** `IsSceneLoaded`: holds exactly when `GetLoadedScene` does not throw. */
    predicate IsSceneLoaded()
      reads this
      ensures IsSceneLoaded() <==> GetLoadedScene().Ok?
    {
      loadedScene.Some?
    }

    /** `NewScene`: the loaded scene replaced by a new one. */
    method NewScene(scene: SceneId)
      modifies this`loadedScene
      ensures loadedScene == Some(scene)
    {
      loadedScene := Some(scene);
    }

    /** `RegisterEvent`: queued behind every earlier event. */
    method RegisterEvent(event: W -> W)
      modifies this`events
      ensures events == old(events) + [event]
    {
      events := events + [event];
    }

    /** `Update`: every queued event run in registration order, then the
        queue emptied. */
    method Update()
      modifies this`world, this`events
      ensures world == RunAll(old(events), old(world))
      ensures events == []
    {
      var queue := events;
      for i := 0 to |queue|
        invariant world == RunAll(queue[..i], old(world))
      {
        assert queue[..i + 1][..i] == queue[..i];
        world := queue[i](world);
      }
      assert queue[..|queue|] == queue;
      events := [];
    }
  }
}
