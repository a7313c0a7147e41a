# Coral-Engine core, modelled in Dafny

Coral-Engine is a C++ Vulkan rendering engine. It is built from a Vulkan
context (runtime, physical and logical device, queue families), GPU memory
objects (buffers, images, image views, descriptor set layouts and sets),
graphics and compute pipeline builders, render passes, a swap chain and
the frame loop of the renderer, shader stage flags and reflection types,
textures and texture arrays, small vector and colour maths, a scene object
tree, an asset manager with an importer, metadata and prefabs, an immediate
mode GUI layout engine, and a Mono scripting bridge.

This project models the engine logic that sits between those libraries.
It covers:

- the builders' defaults and setters;
- the alignment, range and bit-flag arithmetic;
- how the swap chain chooses its format, present mode and extent;
- the attachment and framebuffer layout of a render pass;
- the renderer's frame and resize flags;
- the descriptor and push-constant merge of a graphics pipeline;
- the layout passes of GUI elements;
- the caches and registries kept by the asset, shader, scene, script and
  GUI managers;
- the import of a scene into objects, meshes, materials and textures, and
  its reloading as a prefab.

Every Vulkan, GLFW, ImGui, assimp, Mono or entt call becomes a parameter
or an opaque value: a result code, memory properties, queue family
properties, reflection output, a handle number.

The model follows the source file by file, one Dafny module per file:

- Objects whose fields the source updates in place are classes. Their
  methods say what they change and what the new state is.
- Pure logic is functions.
- The properties the source relies on are lemmas:
  - round trips (decimal font sizes, metadata save and load, assembly
    load and unload);
  - invariants kept by every operation (the two-way script registry, the
    parent and child links of the n-ary tree, the queue indices in use);
  - results that do not depend on iteration order (the minimal flag set,
    the merged set layouts);
  - the layout passes.

`Wrappers` holds the `Option`/`Result` types. `Bits` holds unsigned
64-bit arithmetic: the masks of `GetAlignment`, and the wrapping sums and
products of instance counts, offsets and alignment sizes in both buffer
classes. `Text` holds `find_last_of`/`substr` as used for path and name
splitting.

## Model

| member | source | states |
|---|---|---|
| Functionals.FirstIndex | src/utils/functionals.h:24 | the position `find_if` stops at: every earlier element fails the predicate and, short of the end, the element there satisfies it |
| Functionals.FindIf | src/utils/functionals.h:22-29 | empty exactly when no element satisfies the predicate; otherwise the first element that does |
| Text.AfterLast | src/gui/manager.cpp:114-117 | what follows the last separator, the whole string when there is none; the result holds no separator |
| Text.BeforeLast | src/gui/manager.cpp:114-117 | what precedes the last separator, the whole string when there is none |
| Text.SplitJoin | src/gui/manager.cpp:114-117 | joining a stem, one separator and a separator-free tail splits back into that stem and tail |
| BufferTemplate.GetAlignment | src/memory/buffer.h:140-145 | the 64-bit mask rounding; an alignment of 0 keeps the size |
| BufferTemplate.AlignmentRoundsUp | src/memory/buffer.h:140-145 | for a power-of-two alignment the result is a multiple of it, at least the size and less than size plus alignment |
| BufferTemplate.MaskedIsFloor | src/memory/buffer.h:140-145 | the mask trick equals `((size + a - 1) / a) * a` |
| BufferTemplate.Stored | src/memory/buffer.h:241-243 | the memory after a `memcpy`: the copied bytes hold the data, every other byte is unchanged |
| BufferTemplate.Load | src/memory/buffer.h:300-307 | the bytes a `T` read through a pointer sees: `n` bytes from the base, in order |
| BufferTemplate.Buffer.constructor | src/memory/buffer.h:148-179 | stores the count, `sizeof(T)` and properties, the alignment size from `GetAlignment(sizeof(T), minOffsetAlignment)`, the initial bytes of the whole size, unmapped |
| BufferTemplate.Buffer.Size | src/memory/buffer.h:120 | the 64-bit wrapped product of count and alignment size; when it does not wrap it is at least one aligned instance and at least the instance count |
| BufferTemplate.Buffer.Map | src/memory/buffer.h:189-215 | memory that is not host-visible stays unmapped; `WholeSize` maps the whole buffer from 0, otherwise the requested range with 64-bit wrapped byte products |
| BufferTemplate.Buffer.Unmap | src/memory/buffer.h:217-223 | the buffer is unmapped afterwards |
| BufferTemplate.Buffer.Resolve | src/memory/buffer.h:232-235 | `WholeSize` stands for every instance from offset 0 |
| BufferTemplate.Buffer.Write | src/memory/buffer.h:225-244 | an unmapped buffer or a range whose 64-bit wrapped end passes the count changes nothing; otherwise `count * alignmentSize` bytes of the data are stored from the mapped base plus `offset` objects of `sizeof(T)` bytes |
| BufferTemplate.Buffer.Flush | src/memory/buffer.h:246-263 | unmapped: nothing flushed; otherwise the mapped range or the requested byte range, with 64-bit wrapped products |
| BufferTemplate.Buffer.Invalidate | src/memory/buffer.h:283-298 | unmapped: nothing invalidated; otherwise the mapped range or the requested byte range, with 64-bit wrapped products |
| BufferTemplate.Buffer.DescriptorInfo | src/memory/buffer.h:265-281 | `WholeSize` describes the whole buffer from 0; otherwise none exactly when the 64-bit wrapped sum of count and offset passes the instance count, and else the wrapped byte offset and range |
| BufferTemplate.Buffer.ReadAt | src/memory/buffer.h:300-307 | none exactly for an index past the end; otherwise the `sizeof(T)` bytes at `index * sizeof(T)` from the mapped base |
| BufferTemplate.Buffer.WriteAt | src/memory/buffer.h:309-316 | past the end or unmapped changes nothing; otherwise `alignmentSize` bytes, the object and what follows it, are stored at `index * sizeof(T)` from the mapped base |
| BufferTemplate.Buffer.FlushAt | src/memory/buffer.h:318-326 | flushes exactly the index's aligned range, nothing past the end or when unmapped |
| BufferTemplate.Buffer.DescriptorInfoAt | src/memory/buffer.h:328-336 | none exactly past the end, otherwise the index's aligned range |
| BufferTemplate.Buffer.InvalidateAt | src/memory/buffer.h:338-346 | invalidates exactly the index's aligned range, nothing past the end or when unmapped |
| BufferTemplate.Buffer.CopyRegion | src/memory/buffer.h:348-367 | `WholeSize` copies the whole buffer from 0 to 0, otherwise the wrapped byte range of the given instances |
| BufferTemplate.Buffer.WriteAtAligned | src/memory/buffer.h:309-316 | the corrected `WriteAt`: the object's `sizeof(T)` bytes at the start of its aligned slot, nothing else |
| BufferTemplate.Buffer.ReadAtAligned | src/memory/buffer.h:300-307 | the corrected `ReadAt`: the `sizeof(T)` bytes at the start of the aligned slot |
| BufferTemplate.StoredThenLoad | src/memory/buffer.h:241-243 | reading back from where `memcpy` stored gives the first bytes copied |
| BufferTemplate.WriteAtThenReadAt | src/memory/buffer.h:300-316 | as written, an object written at an index is read back unchanged at that index |
| BufferTemplate.WriteAtOverrunsNext | src/memory/buffer.h:242-243 | as written, with `sizeof(T) < alignmentSize` a `WriteAt(index)` overwrites the first byte of object `index + 1`, and for `index > 0` writes below the range `FlushAt(index)` flushes |
| BufferTemplate.WriteAtOverrunExample | src/memory/buffer.h:242-243 | a 4-byte `T` at alignment 256: `WriteAt(1)` overwrites byte 8, the start of object 2, and byte 4 lies outside `FlushAt(1)`'s range |
| BufferTemplate.AlignedWriteThenRead | src/memory/buffer.h:300-316 | corrected: an object written at its aligned slot is read back unchanged |
| BufferTemplate.AlignedWriteKeepsOthers | src/memory/buffer.h:300-316 | corrected: writing one aligned slot leaves the object in every other slot unchanged |
| BufferTemplate.AlignedWriteStaysInSlot | src/memory/buffer.h:318-346 | corrected: every byte an aligned write changes lies inside the slot's aligned range, the one flushed and described for that index |
| BufferTemplate.DescriptorRangeWithin | src/memory/buffer.h:265-281 | when nothing wraps, an accepted range lies inside the buffer |
| BufferTemplate.WrappedRangeAccepted | src/memory/buffer.h:272-275 | the bounds test wraps: two instances from offset `2^64 - 2` are accepted for any buffer |
| Buffer.Builder.constructor | src/memory/buffer.cpp:7 | a new builder has no size, count, alignment or flags |
| Buffer.Builder.InstanceSize | src/memory/buffer.cpp:9-12 | sets the instance size and hands back the same builder |
| Buffer.Builder.InstanceCount | src/memory/buffer.cpp:13-16 | sets the instance count and hands back the same builder |
| Buffer.Builder.UsageFlags | src/memory/buffer.cpp:17-20 | adds one usage flag to the set, keeping the others |
| Buffer.Builder.MemoryProperty | src/memory/buffer.cpp:21-25 | adds one memory property to the set, keeping the others |
| Buffer.Builder.DeviceAlignment | src/memory/buffer.cpp:26-29 | sets the device alignment and hands back the same builder |
| Buffer.Buffer.constructor | src/memory/buffer.cpp:33-62 | the usage and property masks are the least masks covering every flag of the builder; the alignment size is `GetAlignment` of the instance size |
| Buffer.Buffer.Size | src/memory/buffer.cpp:173 | the 64-bit wrapped product of count and alignment size; when it does not wrap it is at least one aligned instance and at least the instance count |
| Buffer.Buffer.Flush | src/memory/buffer.cpp:69-85 | unmapped: nothing flushed; `WholeSize` flushes the mapped range, otherwise the requested byte range with 64-bit wrapped products |
| Buffer.Buffer.DescriptorInfo | src/memory/buffer.cpp:86-101 | `WholeSize` describes the whole buffer from 0; otherwise throws exactly when the 64-bit wrapped sum of count and offset passes the instance count, and else gives the wrapped byte offset and range |
| Buffer.WrappedRangeAccepted | src/memory/buffer.cpp:86-101 | the bounds test wraps: two instances from offset `2^64 - 2` are described instead of throwing |
| Buffer.Buffer.Invalidate | src/memory/buffer.cpp:102-118 | unmapped: nothing invalidated; otherwise the mapped range or the requested byte range with 64-bit wrapped products |
| Buffer.Buffer.FlushAt | src/memory/buffer.cpp:119-131 | flushes exactly the index's aligned range when mapped and in bounds |
| Buffer.Buffer.DescriptorInfoAt | src/memory/buffer.cpp:132-137 | throws exactly for an index past the end, otherwise describes that instance's aligned range |
| Buffer.Buffer.InvalidateAt | src/memory/buffer.cpp:138-144 | invalidates exactly the index's aligned range when mapped and in bounds |
| Buffer.Buffer.CopyRegion | src/memory/buffer.cpp:145-170 | nothing is copied exactly when the alignment sizes differ; `WholeSize` copies from 0 to 0 the size of one of the two buffers, which fits both when neither size wraps; otherwise the wrapped byte range |
| FlagSets.OrAll | src/memory/buffer.cpp:34-39 | the OR of a flag set covers every member, and every mask covering every member covers it: it is the least such mask |
| ImageView.Builder.constructor | src/memory/imageView.h:55-61 | a new builder describes a 2D view of the whole first mip level and array layer (with lines 23) |
| ImageView.Builder.ViewType | src/memory/imageView.h:26-29 | sets the view type and hands back the same builder |
| ImageView.Builder.BaseMipLevel | src/memory/imageView.h:31-34 | sets the base mip level and hands back the same builder |
| ImageView.Builder.LevelCount | src/memory/imageView.h:36-39 | sets the level count and hands back the same builder |
| ImageView.Builder.BaseArrayLayer | src/memory/imageView.h:41-44 | sets the base array layer and hands back the same builder |
| ImageView.Builder.LayerCount | src/memory/imageView.h:46-49 | sets the layer count and hands back the same builder |
| ImageView.Builder.Build | src/memory/imageView.h:51-53 | a new view of the builder's image, in its format, over exactly the builder's subresource range, with the aspect the image's usage and format call for |
| ImageView.ImageView.constructor | src/memory/imageView.cpp:10-36 | copies the range from the builder; depth-stencil usage gives depth (plus stencil for the two stencil formats), anything else colour |
| ImageView.ImageView.Has | src/memory/imageView.cpp:42-47 | true exactly when the queried range is the view's range |
| ImageView.HasIsExact | src/memory/imageView.cpp:42-47 | two views that both answer a query have the same range |
| Image.TransitionAspect | src/memory/image.cpp:114-121 | depth formats get the depth aspect, plus stencil only for a move to depth-stencil attachment; every other format the colour aspect |
| Image.ViewAspect | src/memory/image.cpp:222-230 | depth-stencil usage gives depth, plus stencil exactly for the two stencil formats; otherwise colour |
| Image.TransitionAspectMatchesView | src/memory/image.cpp:224-232 | the barrier's aspect agrees with the view's for colour images and for stencil images moved to depth-stencil attachment (with lines 114-121) |
| Image.TransitionBarrier | src/memory/image.cpp:95-216 | succeeds exactly for the supported layout pairs, with the source scope of the old layout and the destination scope of the new; otherwise throws naming the unsupported side |
| Image.TransitionBarrierAsWritten | src/memory/image.cpp:127-137 | the switch as written: the same result as the intended one except for undefined to colour attachment |
| Image.FallthroughDropsColorScope | src/memory/image.cpp:131-137 | the missing `break` makes undefined to colour attachment wait on the transfer stage without colour-attachment write access |
| Image.ConsecutiveBarriersAgree | src/memory/image.cpp:127-204 | for two supported moves in a row, the first barrier's destination scope is the second's source scope |
| Image.SupportedMoveEndsResting | src/memory/image.cpp:127-204 | every supported move ends in a layout a fresh image can be moved to directly |
| Image.Halve | src/memory/image.cpp:75-77 | a halving step never goes below 1 and never grows a positive extent |
| Image.MipDimIsLevelExtent | src/memory/image.cpp:73-78 | halving `level` times gives `max(1, d / 2^level)` |
| Image.StepDownIsHalve | src/memory/image.cpp:402-407 | the mipmap loop's stepping agrees with the copy's halving on positive extents |
| Image.MipDimPositive | src/memory/image.cpp:73-78 | every mip extent of a positive extent is positive |
| Image.Builder.constructor | src/memory/image.h:78-89 | a new builder: undefined format, extent 1x1x1, one sample, one mip level, one layer, undefined layout, no image (with lines 26-29) |
| Image.Builder.Image | src/memory/image.h:31-34 | records an existing image handle |
| Image.Builder.Format | src/memory/image.h:36-39 | sets the format and hands back the same builder |
| Image.Builder.Extent | src/memory/image.h:41-44 | sets the extent and hands back the same builder |
| Image.Builder.UsageFlags | src/memory/image.h:46-49 | adds one usage flag to the set, keeping the others |
| Image.Builder.SampleCount | src/memory/image.h:51-54 | sets the sample count and hands back the same builder |
| Image.Builder.MipLevels | src/memory/image.h:56-59 | sets the mip level count and hands back the same builder |
| Image.Builder.LayersCount | src/memory/image.h:61-64 | sets the layer count and hands back the same builder |
| Image.Builder.InitialLayout | src/memory/image.h:66-69 | sets the initial layout and hands back the same builder |
| Image.Builder.Build | src/memory/image.h:71-76 | throws for an unset extent and for an initial layout no move reaches; otherwise a new image with the builder's extent, format, counts, least usage mask, in the requested layout |
| Image.Image.constructor | src/memory/image.cpp:12-52 | copies the builder's settings, owns its memory exactly when it made the image, cube-compatible exactly with six layers |
| Image.Image.TransitionLayout | src/memory/image.cpp:95-216 | the same layout records nothing; a supported move records its barrier and changes the layout; an unsupported one throws and keeps it |
| Image.Image.Copy | src/memory/image.cpp:61-93 | throws without transfer-destination usage, for a mip level or layer out of range; otherwise copies the colour aspect at the halved extent of that level |
| Image.Image.Barrier | src/memory/image.cpp:218-252 | a barrier within the current layout over every level and layer, with the view's aspect and the given scopes |
| Image.Image.Resize | src/memory/image.cpp:254-293 | the same or an empty extent changes nothing; otherwise the image is rebuilt at the new extent and moved back to its layout |
| Image.Image.GenerateMipmaps | src/memory/image.cpp:314-435 | one level does nothing; otherwise one blit per level, each halving the previous, and every level ends shader-read-only |
| Image.MipChainIsContiguous | src/memory/image.cpp:344-407 | each blit's destination level and extent are the next blit's source |
| KeyStates.Advance | src/core/input.cpp:31-35 | one update ends every transient state (pressed becomes held, released becomes not pressed) and never changes whether the key is down |
| KeyStates.OnAction | src/core/input.cpp:97-106 | a press or a release overrides the state, any other action keeps it; after the next update the key is down exactly when it was pressed, or it was down and not released |
| KeyStates.PressThenUpdate | src/core/input.cpp:97-106 | a press reads Pressed until the next update and Held after it; a release becomes NotPressed; a second update changes nothing (with lines 29-36) |
| KeyStates.SteppedStates | src/core/input.cpp:30-36 | after the update loop every listed key has advanced and every other code keeps its state |
| KeyStates.ResetStates | src/core/input.cpp:20-22 | after the setup loop every listed key is NotPressed and every other code keeps its state |
| KeyStates.SteppedIdempotent | src/core/input.cpp:29-48 | a second update in the same frame changes no state |
| KeyStates.StepAll | src/core/input.cpp:30-36 | the loop over the keys computes the update of every listed key |
| KeyStates.ResetAll | src/core/input.cpp:20-22 | the loop over the keys computes the setup of every listed key |
| CoreInput.Input.constructor | src/core/input.h:196 | empty state maps, the mouse at the origin and no deltas |
| CoreInput.Input.Setup | src/core/input.cpp:19-27 | every reflected key and button reads NotPressed; other codes keep their state |
| CoreInput.Input.Update | src/core/input.cpp:29-48 | every reflected key and button advances, no reflected key reads pressed or released afterwards, other codes keep their state, both deltas are reset |
| CoreInput.Input.KeyCallback | src/core/input.cpp:94-107 | a press makes the key read pressed, a release released; any other action changes nothing; no other key changes |
| CoreInput.Input.MouseButtonCallback | src/core/input.cpp:116-128 | a press makes the button read pressed, a release released; any other action changes nothing |
| CoreInput.Input.MouseMoveCallback | src/core/input.cpp:109-114 | the new position is stored and the delta is the move from the old one |
| CoreInput.Input.ScrollCallback | src/core/input.cpp:130-132 | the scroll delta is the reported offset |
| CoreInput.Input.GetKeyState | src/core/input.cpp:50-52 | the key's stored state, `NotPressed` for a key never reported |
| CoreInput.Input.GetMouseButtonState | src/core/input.cpp:54-56 | the button's stored state, `NotPressed` for a button never reported |
| CoreInput.Input.IsKeyPressed | src/core/input.cpp:58-60 | true exactly when the key is stored as Pressed |
| CoreInput.Input.IsKeyHeld | src/core/input.cpp:62-64 | true exactly when the key is stored as Held |
| CoreInput.Input.IsKeyReleased | src/core/input.cpp:66-68 | true exactly when the key is stored as Released |
| CoreInput.Input.IsMouseButtonPressed | src/core/input.cpp:70-72 | true exactly when the button is stored as Pressed |
| CoreInput.Input.IsMouseButtonHeld | src/core/input.cpp:74-76 | true exactly when the button is stored as Held |
| CoreInput.Input.IsMouseButtonReleased | src/core/input.cpp:78-80 | true exactly when the button is stored as Released |
| CoreInput.ReflectedUpdateKeepsEscapePressed | src/core/input.cpp:30-36 | Escape (256) is a key the enum reflection does not list, so a pressed Escape stays Pressed across updates |
| CoreInput.FullUpdateAdvancesEveryKey | src/core/input.cpp:30-36 | an update over every key turns any key pressed this frame into Held |
| ReCoreInput.Input.constructor | src/re_core/input.cpp:142-263 | the input knows every key of the full key list and every mouse button, with empty state maps and zero vectors (with lines 438-440) |
| ReCoreInput.Input.Setup | src/re_core/input.cpp:355-363 | every listed key and button reads NotPressed |
| ReCoreInput.Input.Update | src/re_core/input.cpp:365-384 | every listed key and button advances, none reads pressed or released afterwards, both deltas are reset |
| ReCoreInput.Input.KeyCallback | src/re_core/input.cpp:394-406 | a press makes the key read pressed, a release released; any other action changes nothing |
| ReCoreInput.Input.MouseButtonCallback | src/re_core/input.cpp:415-427 | a press makes the button read pressed, a release released; any other action changes nothing |
| ReCoreInput.Input.MouseMoveCallback | src/re_core/input.cpp:408-413 | the new position is stored and the delta is the move from the old one |
| ReCoreInput.Input.ScrollCallback | src/re_core/input.cpp:429-431 | the scroll delta is the reported offset |
| ReCoreInput.Input.GetKeyState | src/re_core/input.cpp:310-312 | the key's stored state, `NotPressed` for a key never reported |
| ReCoreInput.Input.GetMouseButtonState | src/re_core/input.cpp:314-316 | the button's stored state, `NotPressed` for a button never reported |
| ReCoreInput.Input.IsKeyPressed | src/re_core/input.cpp:318-320 | true exactly when the key is stored as Pressed |
| ReCoreInput.Input.IsKeyHeld | src/re_core/input.cpp:322-324 | true exactly when the key is stored as Held |
| ReCoreInput.Input.IsKeyReleased | src/re_core/input.cpp:326-328 | true exactly when the key is stored as Released |
| ReCoreInput.Input.IsMouseButtonPressed | src/re_core/input.cpp:330-332 | true exactly when the button is stored as Pressed |
| ReCoreInput.Input.IsMouseButtonHeld | src/re_core/input.cpp:334-336 | true exactly when the button is stored as Held |
| ReCoreInput.Input.IsMouseButtonReleased | src/re_core/input.cpp:338-340 | true exactly when the button is stored as Released |
| ReCoreInput.UpdateCoversEveryKey | src/re_core/input.cpp:365-384 | with the full key list every pressed key becomes Held, and a code outside the list is untouched |
| Queue.Below | src/core/device.cpp:43 | the indices below `n`, the ones handed out when every queue so far was taken in order |
| Queue.OutOfOrderReleaseSharesIndex | src/core/device.cpp:47-49 | with two queues, releasing the first one taken and requesting again hands out the index still in use (with lines 43) |
| Queue.LowestFree | src/core/device.cpp:39-45 | the least index below the queue count that no live queue holds |
| Queue.AllHeld | src/core/device.cpp:40-42 | when every index below the count is held there are as many live queues as the family has |
| Queue.StackOrderAgrees | src/core/device.cpp:43 | while queues are released in reverse order, the lowest free index is the one the source computes |
| Queue.Family.constructor | src/core/device.cpp:20-22 | every queue of the family is available and none is in use |
| Queue.Family.RequestQueue | src/core/device.cpp:24-30 | an exhausted family throws with the prefixed message and changes nothing; otherwise hands out an index not in use, below the count, and takes one queue; in stack order it is the source's index (with lines 39-45) |
| Queue.Family.RequestPresentQueue | src/core/device.cpp:32-37 | a family that cannot present throws and changes nothing; otherwise as a request |
| Queue.Family.Take | src/core/device.cpp:39-45 | the queue constructor: a free index below the count, one fewer queue remaining |
| Queue.Family.ReleaseQueue | src/core/device.cpp:47-49 | the released index is free again and one more queue remains |
| Queue.RequestThenRelease | src/core/device.cpp:24-30 | requesting a queue and destroying it leaves the family as it was (with lines 47-49) |
| Device.EmptyPools | src/core/device.cpp:132-134 | one empty pool map for each family index below the count, and no other entry |
| Device.ThreadKey | src/core/device.cpp:222-226 | the main thread is keyed 0, any other thread by its hash |
| Device.FindMemoryType | src/core/device.cpp:206-218 | the first memory type the filter admits whose properties include the requested ones; none exactly when no type fits |
| Device.MakeFamilies | src/core/device.cpp:99-104 | one fresh, distinct family per reported family, indexed by position, with its flags, count and present support and every queue available |
| Device.Registry.constructor | src/re_core/device.cpp:21 | no device is registered at start |
| Device.Registry.GlobalDevice | src/re_core/device.cpp:22-27 | the registered device, or a throw with "Device not initialized" when there is none |
| Device.Device.constructor | src/core/device.cpp:90-137 | a family per reported family with every queue available, one command pool per family for the main thread, and the device registered as the global one |
| Device.Device.Destroy | src/core/device.cpp:139-143 | the main thread's pools are freed and the global device is cleared |
| Device.Device.CreateCommandPools | src/core/device.cpp:145-152 | every family gets a pool for the thread, an existing one kept as `emplace` does |
| Device.Device.FreeCommandPools | src/core/device.cpp:154-159 | no family keeps a pool for the thread; other threads' pools stay |
| Device.Device.CommandPool | src/core/device.cpp:186-187 | the pool of a family and thread, present exactly when created and not freed |
| Device.Device.RequestQueue | src/core/device.cpp:161-173 | a queue from the first family with the flags and a free queue, taken from that family only; throws and changes nothing when no family offers one |
| Device.Device.RequestPresentQueue | src/core/device.cpp:175-184 | a queue from the first family that can present and has a free queue; throws and changes nothing otherwise |
| Device.Device.RunSingleTimeCommand | src/core/device.cpp:220-256 | the queue it borrows is given back, so no family changes; with no family offering the flags it fails for want of a queue; otherwise it uses the first family that offers them, and succeeds exactly when the calling thread has a pool there, with that pool |
| Device.CreateThenFree | src/core/device.cpp:145-159 | creating a thread's pool and freeing it leaves the other threads' pools as they were |
| PhysicalDevice.SupportedSnoc | src/core/physicalDevice.cpp:43-49 | one more family adds exactly the required kinds it serves to the supported set |
| PhysicalDevice.HasRequiredQueueFamilies | src/core/physicalDevice.cpp:39-54 | true exactly when every required queue kind is served by some family and some family can present |
| PhysicalDevice.EraseAvailable | src/core/physicalDevice.cpp:57-60 | the required names left after erasing every available extension: exactly those not available |
| PhysicalDevice.HasRequiredExtensions | src/core/physicalDevice.cpp:56-66 | true exactly when every required extension is available |
| PhysicalDevice.HasRequiredFeatures | src/core/physicalDevice.cpp:68-79 | true exactly when every required feature is supported |
| PhysicalDevice.IsSwapChainSupported | src/re_core/physicalDevice.cpp:112 | true exactly when the surface reports a format and a present mode |
| PhysicalDevice.PhysicalDevice.constructor | src/re_core/physicalDevice.cpp:26-39 | stores the requirements and what the driver reports |
| PhysicalDevice.PhysicalDevice.QuerySurfaceCapabilities | src/core/physicalDevice.cpp:24-28 | the surface formats and present modes are queried again |
| PhysicalDevice.PhysicalDevice.IsSuitable | src/re_core/physicalDevice.cpp:47-53 | true exactly when the queue, extension and feature requirements all hold |
| PhysicalDevice.PhysicalDevice.IsSuitableWith | src/core/physicalDevice.cpp:31-37 | the same rule with the requirements taken from the runtime settings |
| Runtime.FirstQualifying | src/re_core/runtime.cpp:140-170 | the first candidate that is suitable (and discrete, when asked), wrapped with its reported families, type, extensions and features; throws exactly when no candidate qualifies |
| Runtime.Registry.constructor | src/re_core/runtime.cpp:18 | no runtime is registered at start |
| Runtime.Registry.GlobalRuntime | src/re_core/runtime.cpp:19-24 | the registered runtime, or a throw with "Runtime not initialized" |
| Runtime.Runtime.constructor | src/re_core/runtime.cpp:93-101 | stores the requirements and instance extensions; no physical device yet |
| Runtime.Runtime.CreateInstance | src/re_core/runtime.cpp:121-138 | the window's extensions are appended to the instance extensions |
| Runtime.Runtime.SelectPhysicalDevice | src/re_core/runtime.cpp:140-170 | keeps the first suitable discrete device; throws and keeps nothing when none qualifies |
| Runtime.Runtime.Destroy | src/re_core/runtime.cpp:112-119 | the global runtime is cleared |
| Runtime.NewRuntime | src/re_core/runtime.cpp:93-110 | on success a new runtime with the window's extensions appended and a device selected, registered as the global one; on failure the registration is untouched |
| Runtime.DebugCallback | src/core/runtime.cpp:12-27 | aborts the call exactly for an error message; a warning is only logged |
| Runtime.Settings.constructor | src/core/runtime.cpp:31-57 | the static settings: debug-utils instance extension, validation layers, the swapchain, mesh-shader and atomic-float device extensions, graphics, compute and transfer queues |
| Runtime.Settings.CreateInstance | src/core/runtime.cpp:83-84 | the window's extensions are appended to the static settings |
| Runtime.RequiredFeatures | src/core/runtime.cpp:32-36 | exactly the four features the settings enable |
| Runtime.CreateInstanceTwice | src/core/runtime.cpp:75-92 | a second runtime appends the window's extensions a second time |
| Runtime.CoreRuntime.constructor | src/core/runtime.cpp:59-66 | no physical device is selected yet |
| Runtime.CoreRuntime.SelectPhysicalDevice | src/core/runtime.cpp:114-125 | keeps the first suitable device of any type; throws and keeps nothing when none is suitable |
| Runtime.Singleton.constructor | src/core/runtime.cpp:127 | no instance at start |
| Runtime.Singleton.Init | src/core/runtime.cpp:129-131 | a new runtime with a device becomes the instance; when none is suitable it throws and the instance is kept |
| Runtime.Singleton.Destroy | src/core/runtime.cpp:133-135 | the instance is released |
| RenderPass.FrameViews | src/graphics/renderPass.cpp:52-61 | one view per attachment, of that attachment's image for the frame |
| RenderPass.FrameBufferAt | src/graphics/renderPass.cpp:49-72 | framebuffer `i` binds the frame's views, in attachment order, at the pass extent |
| RenderPass.ViewsCount | src/graphics/renderPass.cpp:49-72 | creating the framebuffers makes one view per attachment per image |
| RenderPass.AllReset | src/graphics/renderPass.cpp:87-89 | every view slot is released and the slots are kept |
| RenderPass.ResizeAttachment | src/graphics/renderPass.cpp:12-16 | every image of the attachment takes the new extent at depth 1 and keeps its layout |
| RenderPass.Builder.constructor | src/graphics/renderPass.h:75-80 | a new builder: two images, output index 0, no attachments, subpasses or dependencies (with lines 33) |
| RenderPass.Builder.ImageCount | src/graphics/renderPass.h:35-38 | sets the image count and hands back the same builder |
| RenderPass.Builder.OutputImageIndex | src/graphics/renderPass.h:40-43 | sets the output index and hands back the same builder |
| RenderPass.Builder.Extent | src/graphics/renderPass.h:45-48 | sets the extent and hands back the same builder |
| RenderPass.Builder.Attachment | src/graphics/renderPass.h:50-57 | an index past the next free one only logs; otherwise the attachment is appended |
| RenderPass.Builder.Subpass | src/graphics/renderPass.h:59-62 | appends the subpass |
| RenderPass.Builder.Dependency | src/graphics/renderPass.h:64-67 | appends the dependency |
| RenderPass.Builder.Build | src/graphics/renderPass.h:69-71 | a new valid pass with the builder's attachments, subpasses, count, extent and output attachment |
| RenderPass.AttachInOrder | src/graphics/renderPass.h:50-57 | attachments given with indices 0 and 1 land at those indices |
| RenderPass.RenderPass.constructor | src/graphics/renderPass.cpp:18-27 | takes the builder's settings, the sample count of the first attachment, and creates one framebuffer per image |
| RenderPass.RenderPass.CreateFrameBuffers | src/graphics/renderPass.cpp:49-72 | one framebuffer per image over that frame's views; the new views are appended |
| RenderPass.RenderPass.MakeFramebuffer | src/graphics/renderPass.cpp:52-70 | the framebuffer of one frame, its views appended |
| RenderPass.RenderPass.DestroyFrameBuffers | src/graphics/renderPass.cpp:81-90 | no framebuffer is left and every view is released |
| RenderPass.RenderPass.Begin | src/graphics/renderPass.cpp:92-121 | the image becomes the in-flight one and each attachment contributes its clear value, in order |
| RenderPass.RenderPass.End | src/graphics/renderPass.cpp:139-142 | no image is in flight afterwards |
| RenderPass.RenderPass.InFlightImageIndex | src/graphics/renderPass.h:115-121 | the in-flight index, or -1 as a `u32` when none |
| RenderPass.RenderPass.Subpass | src/graphics/renderPass.h:96-107 | an index out of range gives nothing; otherwise the subpass's colour attachments, in order |
| RenderPass.RenderPass.OutputImage | src/graphics/renderPass.cpp:144-146 | an image of the output attachment |
| RenderPass.RenderPass.CurrentOutputImage | src/graphics/renderPass.cpp:148-150 | the output attachment's image at the output index |
| RenderPass.RenderPass.OutputIsBound | src/graphics/renderPass.cpp:49-72 | framebuffer `i` binds the output image of frame `i` at the output attachment's position (with lines 144-146) |
| RenderPass.RenderPass.Resize | src/graphics/renderPass.cpp:153-170 | the same size or an empty extent returns false and changes nothing; otherwise every image takes the new extent, views are released and recreated, and the framebuffers match the new count and extent |
| SwapChain.ChooseSurfaceFormat | src/graphics/swapChain.cpp:19-34 | an available format: the preferred one when offered, the first one otherwise |
| SwapChain.ChoosePresentMode | src/graphics/swapChain.cpp:36-44 | mailbox exactly when offered, FIFO otherwise |
| SwapChain.Clamp | src/graphics/swapChain.cpp:51-52 | `max(lo, min(hi, x))`: within the bounds when they are ordered, and `x` itself when it already is |
| SwapChain.ChooseExtent | src/graphics/swapChain.cpp:46-54 | the surface's current extent when it is fixed, otherwise the requested one clamped into the surface's bounds |
| SwapChain.ChosenExtentInBounds | src/graphics/swapChain.cpp:46-54 | with ordered bounds the chosen extent lies within them, a requested extent inside them is kept, and choosing again changes nothing |
| SwapChain.WrapSwapChainImage | src/graphics/swapChain.cpp:103-113 | an image built around a swap-chain handle, one level and one layer at the swap-chain extent; an empty extent throws |
| SwapChain.MakeMultisampledImage | src/graphics/swapChain.cpp:188-197 | a multisampled colour image at the extent, moved to colour attachment; an empty extent throws |
| SwapChain.WrapAll | src/graphics/swapChain.cpp:103-113 | one wrapped image per handle, each at the swap-chain extent |
| SwapChain.MakeMultisampledImages | src/graphics/swapChain.cpp:187-200 | `imageCount` new multisampled images |
| SwapChain.BuildRenderPass | src/graphics/swapChain.cpp:212-221 | a new pass over the attachments with the image count, extent and output attachment given (with lines 157-165) |
| SwapChain.SwapChain.constructor | src/graphics/swapChain.cpp:56-66 | the present queue's family joins the sharing families; no images and no pass yet |
| SwapChain.SwapChain.CreateSwapChain | src/graphics/swapChain.cpp:68-96 | the preferred format when offered, mailbox when offered, and the extent the surface allows |
| SwapChain.SwapChain.CreateRenderPass | src/graphics/swapChain.cpp:98-223 | one sample: a single attachment over the swap-chain images; more: a multisampled attachment followed by the resolve attachment over the swap-chain images, which is the output |
| SwapChain.SwapChain.Resize | src/graphics/swapChain.cpp:234-239 | the swap chain and its pass are rebuilt at the extent the surface allows |
| SwapChain.SwapChain.Acquire | src/graphics/swapChain.cpp:241-252 | the driver's result and the acquired index; out of date is returned instead of thrown, keeping the index |
| SwapChain.Present | src/graphics/swapChain.cpp:261-280 | the driver's result; out of date is returned instead of thrown |
| SwapChain.NewSwapChain | src/graphics/swapChain.cpp:56-66 | succeeds exactly when the chosen extent is not empty, with the present family appended and a pass built |
| Shader.StageBits | src/shader/shader.h:21-39 | each single stage is one bit and no two share one; the graphics and ray-tracing groups are the OR of their stages; `All` covers every stage |
| Shader.Or | src/shader/shader.h:41-44 | the OR of two stage masks covers both |
| Shader.OrLeast | src/shader/shader.h:41-44 | any mask covering both covers their OR |
| Shader.And | src/shader/shader.h:50-53 | the AND of two stage masks is covered by both |
| Shader.AndGreatest | src/shader/shader.h:50-53 | any mask both cover is covered by their AND |
| Shader.Compare | src/shader/shader.h:68-73 | equal exactly on the same set and binding; less by set first, then binding |
| Shader.CompareOrder | src/shader/shader.h:68-73 | the comparison is a strict weak order: antisymmetric and transitive, with transitive equivalence |
| Shader.InsertElements | src/shader/shader.h:115 | `emplace` of a present key keeps the set; otherwise the set gains exactly the new descriptor |
| Shader.InsertKeys | src/shader/shader.h:115 | after an insert a key is present exactly when it was before or is the inserted one |
| Shader.InsertOrdered | src/shader/shader.h:115 | inserting keeps the descriptors ordered by set and binding |
| Shader.OneEntryPerBinding | src/shader/shader.h:68-73 | two descriptors with one set and binding leave one entry, the first (with lines 115) |
| Shader.CollectDescriptors | src/shader/shader.cpp:56-144 | the ordered set holds exactly the set and binding pairs reflection found, and each entry is the first descriptor reflected with its set and binding, type and count included, as `std::set::emplace` keeps it |
| Shader.Shader.constructor | src/shader/shader.cpp:56-144 | a new shader starts valid and unchanged, holds one descriptor per reflected set and binding in (set, binding) order, each the first reflected with that key with its type and count, and keeps its push-constant ranges |
| CoreShader.GlslStage | src/core/shader.cpp:46-55 | a stage exactly for the eight GLSL extensions |
| CoreShader.GlslStageInjective | src/core/shader.cpp:46-55 | no two extensions name the same stage |
| CoreShader.ResolveStage | src/core/shader.cpp:43-75 | a `.spv` file resolves to exactly the table's stage for the extension before `.spv`, any other file to the table's stage for its own extension; an extension outside the table throws |
| CoreShader.SpirVMatchesSource | src/core/shader.cpp:57-69 | a compiled `x.ext.spv` resolves to the same stage as its source `x.ext` |
| CoreShader.ToEShLanguage | src/core/shader.cpp:19-39 | a glslang language exactly for the eight stages it lists, a throw for any other |
| CoreShader.LanguagesDistinct | src/core/shader.cpp:19-55 | distinct stages get distinct languages, and every stage an extension names has one |
| SetLayout.Emplace | src/memory/descriptor/setLayout.cpp:26 | `emplace` adds the binding's number to the keys and never overwrites an entry present |
| SetLayout.FirstBindingWins | src/memory/descriptor/setLayout.cpp:11-28 | after adding a sequence of bindings, each number maps to the entry present before or else to the first binding given for it |
| SetLayout.Builder.constructor | src/memory/descriptor/setLayout.h:22 | a new builder has no bindings |
| SetLayout.Builder.AddBinding | src/memory/descriptor/setLayout.cpp:11-28 | reports exactly when the number was present, and the map is the `emplace` of the new description, which keeps every entry keyed by its own number |
| SetLayout.Builder.Binding | src/memory/descriptor/setLayout.cpp:34-36 | the entry for a present number, a throw from `at` otherwise |
| SetLayout.Builder.AddStage | src/memory/descriptor/setLayout.cpp:34-36 | writing through the reference adds the stage to that entry only; an absent number throws and changes nothing |
| SetLayout.Builder.Build | src/memory/descriptor/setLayout.cpp:38-40 | a new layout with the builder's bindings |
| SetLayout.SetLayout.constructor | src/memory/descriptor/setLayout.cpp:42-53 | the layout keeps the builder's bindings |
| SetLayout.SetLayout.Binding | src/memory/descriptor/setLayout.h:31 | the entry for a present number, a throw from `at` otherwise |
| DescriptorSet.WriteFor | src/memory/descriptor/set.cpp:10-27 | a binding absent from the layout adds no write; otherwise one write of one element at array element 0, of the binding's type, with no set yet |
| DescriptorSet.Patch | src/memory/descriptor/set.cpp:55-57 | every write gets the new set and is otherwise unchanged |
| DescriptorSet.Pool.constructor | src/memory/descriptor/pool.cpp:30-41 | no set is live in a new pool |
| DescriptorSet.Pool.Allocate | src/memory/descriptor/pool.cpp:47-53 | a new set, not live before, becomes live |
| DescriptorSet.Pool.Free | src/memory/descriptor/pool.cpp:68-70 | the set is no longer live |
| DescriptorSet.Builder.constructor | src/memory/descriptor/set.h:16-17 | a new builder over a pool and layout with no writes |
| DescriptorSet.Builder.WriteBuffer | src/memory/descriptor/set.cpp:10-27 | reports a binding the layout lacks and then adds nothing; otherwise appends the buffer write |
| DescriptorSet.Builder.WriteImage | src/memory/descriptor/set.cpp:29-46 | reports a binding the layout lacks and then adds nothing; otherwise appends the image write |
| DescriptorSet.Set.constructor | src/memory/descriptor/set.cpp:53-59 | a new set is allocated from the pool and every pending write is pointed at it |
| DescriptorSet.Set.Destroy | src/memory/descriptor/set.cpp:61-64 | the set is freed back to the pool |
| ComputePipeline.Offer | src/compute/pipeline.cpp:26-33 | a set layout is appended exactly when its set number equals the count so far; any other number is refused and the list is unchanged |
| ComputePipeline.OfferAllInOrder | src/compute/pipeline.cpp:35-40 | without counter wrap-around, the layouts kept are exactly the tail of the batch from the one whose number equals the current count, and none when that count lies outside the batch's range |
| ComputePipeline.OfferAllWraps | src/compute/pipeline.cpp:35-40 | the `uint32_t` set counter wraps: a batch of two starting at 2^32-1 on an empty list keeps its second layout as set 0 |
| ComputePipeline.Builder.constructor | src/compute/pipeline.cpp:42-63 | a new builder has no shader, no base pipeline and no set layouts |
| ComputePipeline.Builder.Shader | src/compute/pipeline.cpp:15-18 | the shader at the path is loaded as a compute module when its stage resolves; a failed resolve leaves the builder unchanged |
| ComputePipeline.Builder.BasePipeline | src/compute/pipeline.cpp:20-24 | records the base pipeline handle and index |
| ComputePipeline.Builder.DescriptorSetLayout | src/compute/pipeline.cpp:26-33 | reports a refusal exactly when the set number is not the next in line, and the layouts become the in-order offer |
| ComputePipeline.Builder.DescriptorSetLayouts | src/compute/pipeline.cpp:35-40 | the layouts are offered one by one with a wrapping counter, so the result is the batch offer |
| ComputePipeline.Builder.Build | src/compute/pipeline.cpp:42-55 | the new pipeline has the single compute stage with entry point `main`, the builder's set layouts and its base pipeline |
| ComputePipeline.Pipeline.constructor | src/compute/pipeline.cpp:57-70 | the pipeline keeps the stage, layouts and base pipeline of its create info |
| LayoutMerge.ShaderItems | src/graphics/pipeline.cpp:126-127 | one item per descriptor of the shader, each tagged with the shader's stage |
| LayoutMerge.Grow | src/graphics/pipeline.cpp:128-130 | `resize(set + 1)` when the set is past the end: existing layouts are kept and new ones are empty |
| LayoutMerge.OrStagesCovers | src/graphics/pipeline.cpp:132-133 | the or-ed stage mask covers the starting mask and the stage of every item declaring that set and binding |
| LayoutMerge.OrStagesLeast | src/graphics/pipeline.cpp:132-133 | any mask covering the start and every declaring stage covers the or-ed mask, so it is the least such mask |
| LayoutMerge.MergeOneAt | src/graphics/pipeline.cpp:127-136 | merging one descriptor grows the list to its set, adds the binding when absent with the descriptor's kind, count and stage, and otherwise ors the stage into the present binding and changes nothing else |
| LayoutMerge.MergeCount | src/graphics/pipeline.cpp:126-137 | after merging, there are as many layouts as the highest declared set plus one, or as before if more |
| LayoutMerge.MergeEntry | src/graphics/pipeline.cpp:126-137 | a binding is present after the merge exactly when it was present or some item declares it; present ones gain the or of all declaring stages; new ones take kind and count from the first declaration |
| LayoutMerge.EveryDeclarationBound | src/graphics/pipeline.cpp:122-157 | every descriptor any shader declares ends up bound in its set, with a stage mask that includes that shader's stage |
| LayoutMerge.PushMergedAt | src/graphics/pipeline.cpp:138-153 | the corrected push-constant step: a block is present when it was or is the new one; a matching range has the stage or-ed into the range itself, a new block gets the stage |
| LayoutMerge.PushAsWrittenAt | src/graphics/pipeline.cpp:138-153 | the step as written: the stage is or-ed into a copy, so a matching range keeps its old mask |
| LayoutMerge.PushAllMergedEntry | src/graphics/pipeline.cpp:138-153 | corrected: a block is present exactly when it was or some item declares it, and its mask is the or of every declaring stage |
| LayoutMerge.PushAllAsWrittenEntry | src/graphics/pipeline.cpp:138-153 | as written: a block's mask is its old mask, or only the first declaring stage when it is new |
| LayoutMerge.OrBlockStagesCovers | src/graphics/pipeline.cpp:145-146 | the or-ed push-constant mask covers the start and every stage declaring that block |
| LayoutMerge.MergedRangeServesEveryStage | src/graphics/pipeline.cpp:138-153 | with the corrected merge, every declared push-constant block is in the layout and visible to every stage that declares it |
| LayoutMerge.CopyDropsLaterStages | src/graphics/pipeline.cpp:140-146 | vertex and fragment both declaring bytes 0..64 give a vertex-only range as written, but vertex-or-fragment when corrected |
| LayoutMerge.ShaderRangeItems | src/graphics/pipeline.cpp:138 | one item per push-constant block of the shader, tagged with its stage |
| LayoutMerge.MergeAllAppend | src/graphics/pipeline.cpp:126-137 | merging shader after shader is merging their concatenated descriptors |
| LayoutMerge.PushAllMergedAppend | src/graphics/pipeline.cpp:138-153 | merging push constants shader after shader is merging their concatenation |
| GraphicsPipeline.ViewportStateFor | src/graphics/pipeline.cpp:178-186 | with viewports and scissors both given the state lists them all; otherwise no lists and one dynamic viewport and scissor; never zero counts |
| GraphicsPipeline.OneStagePerShader | src/graphics/pipeline.cpp:170-176 | the stages built are one per registered shader, each with that shader's module and entry `main`, and no stage appears twice |
| GraphicsPipeline.StagesAt | src/graphics/pipeline.cpp:171-176 | the i-th stage is built from the i-th shader in map order |
| GraphicsPipeline.Builder.constructor | src/graphics/pipeline.cpp:16-36 | defaults: triangle list without restart, filled counter-clockwise rasterizing without culling, depth test and write with less, viewport and scissor dynamic (pipeline.h:75-83), subpass 0, nothing registered |
| GraphicsPipeline.Builder.AddShader | src/graphics/pipeline.cpp:38-42 | the shader is keyed by its stage, replacing any earlier shader of that stage |
| GraphicsPipeline.Builder.VertexInputState | src/graphics/pipeline.cpp:44-48 | replaces the vertex input state |
| GraphicsPipeline.Builder.InputAssemblyState | src/graphics/pipeline.cpp:50-54 | replaces the input assembly state |
| GraphicsPipeline.Builder.AddViewport | src/graphics/pipeline.cpp:56-60 | appends a viewport |
| GraphicsPipeline.Builder.AddScissor | src/graphics/pipeline.cpp:62-66 | appends a scissor |
| GraphicsPipeline.Builder.SetRasterizer | src/graphics/pipeline.cpp:68-72 | replaces the rasterizer state |
| GraphicsPipeline.Builder.Multisampling | src/graphics/pipeline.cpp:74-78 | replaces the multisample state |
| GraphicsPipeline.Builder.SetDepthStencil | src/graphics/pipeline.cpp:80-84 | replaces the depth-stencil state |
| GraphicsPipeline.Builder.ColorBlendAttachment | src/graphics/pipeline.cpp:86-90 | appends a colour blend attachment |
| GraphicsPipeline.Builder.SetColorBlend | src/graphics/pipeline.cpp:92-96 | replaces the colour blend state |
| GraphicsPipeline.Builder.AddDynamicState | src/graphics/pipeline.cpp:98-102 | appends a dynamic state to the defaults |
| GraphicsPipeline.Builder.Tessellation | src/graphics/pipeline.cpp:104-108 | replaces the tessellation state |
| GraphicsPipeline.Builder.RenderPass | src/graphics/pipeline.cpp:110-114 | records the render pass |
| GraphicsPipeline.Builder.Subpass | src/graphics/pipeline.cpp:116-120 | records the subpass index |
| GraphicsPipeline.Builder.Build | src/graphics/pipeline.cpp:122-197 | the pipeline gets the merged set layouts after any built earlier, a layout with the push-constant ranges of the corrected merge, one stage per shader, the viewport state rule, and blending with logic op off over the attachments; the builder's layouts move out |
| GraphicsPipeline.Assemble | src/graphics/pipeline.cpp:124-176 | the three loops of `Build` compute the merged layouts, the pipeline layout with the corrected push-constant merge, and the stages |
| GraphicsPipeline.MergeShaders | src/graphics/pipeline.cpp:126-154 | the shader loop computes the descriptor merge and the corrected push-constant merge of all shaders in map order |
| GraphicsPipeline.EmitStages | src/graphics/pipeline.cpp:170-176 | the stage loop yields one stage per shader in map order |
| GraphicsPipeline.MergeShader | src/graphics/pipeline.cpp:127-137 | the descriptor loop of one shader merges all its descriptors |
| GraphicsPipeline.MergeDescriptor | src/graphics/pipeline.cpp:128-136 | one descriptor step is the specified merge of that descriptor |
| GraphicsPipeline.PushShader | src/graphics/pipeline.cpp:138-153 | the push-constant loop of one shader is the corrected merge of its blocks |
| GraphicsPipeline.Pipeline.constructor | src/graphics/pipeline.cpp:199-223 | the pipeline keeps every fixed-function setting of the builder, its set layouts, layout and stages |
| Renderer.NextFrame | src/renderer.cpp:393 | the frame index after a completed frame stays below the image count and cycles from the last frame back to 0 |
| Renderer.AdvanceWithin | src/renderer.cpp:393 | advancing k frames without passing the end just adds k |
| Renderer.AdvanceCompose | src/renderer.cpp:393 | advancing a frames then b frames is advancing a + b frames |
| Renderer.FullCycle | src/renderer.cpp:393 | after as many completed frames as there are images the ring is back at the same frame |
| Renderer.CreateFrames | src/renderer.cpp:124-148 | one frame record per swap-chain image, the i-th with image index i |
| Renderer.Renderer.constructor | src/renderer.cpp:28-41 | two images, no frame started, frame 0, not resized, one swap chain (renderer.h:107-108) |
| Renderer.Renderer.BeginFrame | src/renderer.cpp:175-229 | refused while a frame is started or the window is paused; otherwise an out-of-date or suboptimal acquire replaces the swap chain and the frame does not start, any other result starts it; the result is whether it started |
| Renderer.Renderer.EndFrame | src/renderer.cpp:326-395 | refused when no frame is started or the window is paused; a stale present replaces the swap chain, ends the frame and reports failure without advancing; otherwise the frame ends and the ring advances |
| Renderer.Renderer.DrawUI | src/renderer.cpp:306-324 | the extent becomes the viewport's available size, and the resize flag is raised when it differs from the previous extent |
| Renderer.Renderer.UpdateUI | src/renderer.cpp:244-268 | on a pending resize, the depth and graphics passes are resized to the extent and the reflection pass to half of it, each keeping its old extent when its request has a zero side (the guard of src/graphics/renderPass.cpp:153-156); the flag is then clear; without one nothing changes |
| Renderer.PassResized | src/graphics/renderPass.cpp:153-156 | a render pass asked for an extent with a zero side keeps its current extent; any other request becomes its extent |
| Renderer.NarrowViewportKeepsReflection | src/renderer.cpp:254-256 | a viewport one pixel wide resizes the depth pass but the reflection pass, asked for width 0, keeps its extent |
| GraphicsRenderer.Renderer.constructor | src/graphics/renderer.cpp:12-18 | no frame started and one swap chain |
| GraphicsRenderer.Renderer.BeginFrame | src/graphics/renderer.cpp:30-51 | only warns when a frame is already started; refused when paused; a stale acquire replaces the swap chain and the frame does not start, otherwise it starts |
| GraphicsRenderer.Renderer.EndFrame | src/graphics/renderer.cpp:67-89 | only warns when no frame is started; refused when paused; otherwise submits and ends the frame, and a stale present replaces the swap chain and reports failure |
| Types.FormatFromString | src/utils/types.cpp:10-33 | as written: a known GLSL name maps to a 32-bit float format of its channel count and anything else throws; the vector name listed with a trailing space means `ivec2` itself throws |
| Types.IvecTwoRejected | src/utils/types.cpp:14 | `ivec2` throws while `"ivec2 "` maps to two channels and `ivec3` to three |
| Types.FormatFromName | src/utils/types.cpp:10-33 | corrected: accepted exactly for the known names, each mapped to a 32-bit float format with its channel count |
| Types.FormatFromNameAgrees | src/utils/types.cpp:10-33 | the corrected mapping agrees with the written one on every name except the two `ivec2` spellings, and maps `ivec2` to two channels |
| Types.MatricesAsVectors | src/utils/types.cpp:23-31 | `matN` and `dmatN` map to the format of `vecN` |
| Types.SpirTypeToFormat | src/utils/types.cpp:35-121 | a reflected type has a format exactly when it is not a matrix, its base type is supported and it has 1 to 4 components; that format has the base type's kind and width and the component count |
| Types.FloatVectorsAgree | src/utils/types.cpp:10-51 | the GLSL name and the reflected float type with the same component count give the same format |
| Texture.UsageBits | src/graphics/objects/texture.h:20-30 | the single usages are distinct powers of two, and metallic-roughness is the or of metallic and roughness |
| Texture.Or | src/graphics/objects/texture.h:32-34 | the or of two usages covers both |
| Texture.And | src/graphics/objects/texture.h:40-42 | the and of two usages is covered by both |
| Texture.FromAiTextureType | src/graphics/objects/texture.h:48-62 | an importer texture type maps to one single usage, and to none exactly for the types the switch does not list |
| Texture.SharedUsages | src/graphics/objects/texture.h:48-62 | two different importer types share a usage exactly when they are base colour and diffuse, or lightmap and ambient occlusion |
| Texture.Builder.constructor | src/graphics/objects/texture.h:124-131 | a builder keeps its id and starts unnamed, RGBA8 unorm, 1 by 1, without usage or mipmaps (with lines 71) |
| Texture.Builder.Name | src/graphics/objects/texture.h:73-76 | sets the name and returns the builder |
| Texture.Builder.Size | src/graphics/objects/texture.h:88-92 | sets width and height to the size |
| Texture.Builder.Width | src/graphics/objects/texture.h:94-97 | sets the width |
| Texture.Builder.Height | src/graphics/objects/texture.h:99-102 | sets the height |
| Texture.Builder.Format | src/graphics/objects/texture.h:104-107 | sets the format |
| Texture.Builder.Usage | src/graphics/objects/texture.h:109-112 | as written: the usage or-assignment operator takes its left side by value and returns the or, so the builder's usage is unchanged (with lines 36-38) |
| Texture.Builder.AddUsage | src/graphics/objects/texture.h:109-112 | corrected: the usage becomes the or of the old usage and the new one |
| Texture.Builder.CreateMipmaps | src/graphics/objects/texture.h:114-117 | turns mipmap creation on |
| Texture.Texture.constructor | src/graphics/objects/texture.cpp:13-55 | a texture over the given mip levels whose cache holds exactly the 2-D view of every level from 0 |
| Texture.Texture.ImageView | src/graphics/objects/texture.h:148-172 | the default count means all levels; a range past the last level throws and changes nothing; otherwise the view for that range is returned, reused when cached and appended once when not |
| Texture.WrappedRangeAccepted | src/graphics/objects/texture.h:153 | the 32-bit sum in the range check wraps, so base 2^32-1 with one level passes even though it starts past every level |
| TextureArray.End | src/graphics/objects/textureArray.cpp:28-30 | a thread's range ends between its start and the number of paths |
| TextureArray.StartBounds | src/graphics/objects/textureArray.cpp:28 | thread starts never pass the path count; the first thread starts at 0 and the n-th start is the count |
| TextureArray.Partition | src/graphics/objects/textureArray.cpp:27-30 | each thread's range ends where the next begins; together they run from 0 to the path count |
| TextureArray.OwnedByOneThread | src/graphics/objects/textureArray.cpp:27-32 | every path index is loaded by exactly one thread |
| TextureArray.Owner | src/graphics/objects/textureArray.cpp:27-32 | from any thread whose start is at or below an index, a later or equal thread owns that index |
| TextureArray.IndexedCompose | src/graphics/objects/textureArray.cpp:32-34 | recording paths over two adjacent ranges is recording them over the union |
| TextureArray.IndexedFrame | src/graphics/objects/textureArray.cpp:32-34 | a path outside the range keeps its entry or its absence |
| TextureArray.IndexedDistinct | src/graphics/objects/textureArray.cpp:32-34 | with distinct paths, each path in the range is recorded under its own index |
| TextureArray.IndexedSound | src/graphics/objects/textureArray.cpp:32-34 | every recorded index names a position holding that path |
| TextureArray.CeilLog2 | src/graphics/objects/textureArray.cpp:64 | the computed exponent is the least k with x <= 2^k |
| TextureArray.MipLevels | src/graphics/objects/textureArray.cpp:64 | at least one level, and exactly one without mipmaps |
| TextureArray.MipLevelExamples | src/graphics/objects/textureArray.cpp:64 | 256 by 256 gives 9 levels, 257 gives 10 (ceiling, unlike the floor in texture.cpp:16), 1 by 1 gives one |
| TextureArray.TextureArray.constructor | src/graphics/objects/textureArray.cpp:61-135 | name, format and extent are kept; layers are paths then data; with at least one loader thread every path layer is loaded and indexed, with none only data layers are filled |
| TextureArray.TextureArray.Id | src/graphics/objects/textureArray.cpp:18-23 | the recorded layer of a path, or 2^32-1 (the `-1` cast to `uint32_t`) for an unknown one |
| TextureArray.LoadTexture | src/graphics/objects/textureArray.cpp:25-55 | one thread records and copies exactly the paths in its range |
| TextureArray.LoadAll | src/graphics/objects/textureArray.cpp:78-93 | the threads together record every path and fill every path layer; with zero threads nothing is loaded |
| TextureArray.CopyData | src/graphics/objects/textureArray.cpp:95-110 | the i-th data entry goes to the layer after all paths plus i |
| TextureArray.IdOfDistinctPaths | src/graphics/objects/textureArray.cpp:18-34 | with distinct paths, the id of a path is its position |
| TextureArray.IdNamesItsLayer | src/graphics/objects/textureArray.cpp:18-52 | a recorded id is a path layer, and that layer was loaded from that path |
| Vector.Fill | src/math/vector.h:25 | every one of the N components is the given value |
| Vector.Zero | src/math/vector.h:52 | N zero components |
| Vector.FromArgs | src/math/vector.h:27-31 | the given components come first and the rest are zero |
| Vector.Narrow | src/math/vector.h:33-36 | the first N components of a longer vector |
| Vector.Widen | src/math/vector.h:38-43 | a shorter vector's components followed by the extra arguments, zero-filled |
| Vector.Equal | src/math/vector.h:56-63 | true exactly when all components agree |
| Vector.NotEqual | src/math/vector.h:65-67 | true exactly when some component differs |
| Vector.Add | src/math/vector.h:71-77 | keeps the component count; its algebra is in SubUndoesAdd, AddCommutes and DotLinear |
| Vector.AddScalar | src/math/vector.h:79-85 | keeps the component count |
| Vector.Sub | src/math/vector.h:87-93 | keeps the component count; NegInvolution ties it to `Add` and negation |
| Vector.SubScalar | src/math/vector.h:95-101 | keeps the component count |
| Vector.Mul | src/math/vector.h:103-109 | keeps the component count; AddCommutes states it commutes |
| Vector.MulScalar | src/math/vector.h:111-117 | keeps the component count; DivUndoesMulScalar inverts it |
| Vector.Quot | src/math/vector.h:124 | integer division truncating toward zero, which agrees with Euclidean division for a non-negative dividend and positive divisor |
| Vector.Quotients | src/math/vector.h:119-128 | keeps the component count when no divisor is zero |
| Vector.Div | src/math/vector.h:119-128 | throws exactly when some divisor component is zero; otherwise each component is the truncated quotient, as for integer components |
| Vector.DivScalar | src/math/vector.h:130-139 | throws exactly for a zero scalar; otherwise each component is the truncated quotient, as for integer components |
| Vector.Neg | src/math/vector.h:203-209 | keeps the component count; NegInvolution states negation undoes itself |
| Vector.Dot | src/math/vector.h:215-224 | a vector dotted with itself is never negative, and any vector dotted with zero is zero |
| Vector.Min | src/math/vector.h:252-258 | each component is the smaller of the two, and one of them |
| Vector.Max | src/math/vector.h:260-266 | each component is the larger of the two, and one of them |
| Vector.SubUndoesAdd | src/math/vector.h:71-93 | subtracting b after adding b gives back a; adding zero changes nothing |
| Vector.AddCommutes | src/math/vector.h:71-109 | component-wise sum and product commute |
| Vector.NegInvolution | src/math/vector.h:87-93 | negating twice is the identity, and a - b is a + (-b) (with lines 203-209) |
| Vector.DivUndoesMulScalar | src/math/vector.h:111-139 | dividing by a non-zero scalar undoes multiplying by it, with truncating division |
| Vector.DotSymmetric | src/math/vector.h:215-224 | the dot product is symmetric |
| Vector.DotLinear | src/math/vector.h:215-224 | the dot product with zero is zero and it distributes over addition |
| Vector.MinMaxBounds | src/math/vector.h:252-266 | `Min` is the greatest lower bound and `Max` the least upper bound, both idempotent and commutative |
| Vector.AddAssign | src/math/vector.h:141-146 | in place, the new components are the sum of the old ones and the operand |
| Vector.AddScalarAssign | src/math/vector.h:148-153 | in place, the new components are the old ones plus the scalar |
| Vector.SubAssign | src/math/vector.h:155-160 | in place, the new components are the difference |
| Vector.SubScalarAssign | src/math/vector.h:162-167 | in place, the new components are the old ones minus the scalar |
| Vector.MulAssign | src/math/vector.h:169-174 | in place, the new components are the product |
| Vector.MulScalarAssign | src/math/vector.h:176-181 | in place, the new components are the old ones times the scalar |
| Vector.DivAssign | src/math/vector.h:183-191 | fails exactly when `/` would; the components before the first zero divisor are divided and the rest are left as they were, so on success the result is the quotient |
| Vector.DivScalarAssign | src/math/vector.h:193-201 | a zero scalar throws before any change; otherwise the result is the quotient |
| Aabb.AABB.constructor | src/math/aabb.h:36-37 | a default box has both corners at the origin (with lines 12) |
| Aabb.AABB.FromCorners | src/math/aabb.h:15-16 | the box keeps the given corners |
| Aabb.AABB.GrowPoint | src/math/aabb.h:21-24 | the corners become the component-wise min and max with the point, so the box contains it |
| Aabb.AABB.GrowBox | src/math/aabb.h:26-29 | the corners become the component-wise min and max with the other box's corners |
| Aabb.Union | src/math/aabb.h:31-33 | a new box whose corners are the min and max of both boxes' corners |
| Aabb.UnionCommutes | src/math/aabb.h:31-33 | the union does not depend on argument order |
| Aabb.GrowIdempotent | src/math/aabb.h:21-29 | growing twice by the same point or box is growing once |
| Aabb.GrowKeepsContents | src/math/aabb.h:21-24 | a point inside the box stays inside after growing |
| Rect.Rect.constructor | src/math/rect.h:16 | a default rectangle has both corners at the origin |
| Rect.Rect.FromCorners | src/math/rect.h:17 | keeps the given corners |
| Rect.Rect.GrowToIncludeRect | src/math/rect.h:20-23 | the corners become the min and max with the other rectangle's corners |
| Rect.Rect.GrowToIncludePoint | src/math/rect.h:25-28 | the corners become the min and max with the point, which the rectangle then contains |
| Rect.Zero | src/math/rect.h:34-36 | a new rectangle with both corners at the origin |
| Rect.GrowToIncludeRectHolds | src/math/rect.h:20-23 | after growing, the other rectangle lies inside, and growing again by it changes nothing |
| MathMgv.Quot | src/math/mathMGV.h:42-44 | truncating integer division, agreeing with Euclidean division on non-negative operands |
| MathMgv.Add | src/math/mathMGV.h:30-32 | subtracting either operand from the sum gives the other |
| MathMgv.Sub | src/math/mathMGV.h:34-36 | adding `b` back to the difference gives `a`; a vector minus itself is zero |
| MathMgv.Scale | src/math/mathMGV.h:38-40 | the result is parallel to the vector (zero cross product); scaling by one changes nothing, by zero gives zero |
| MathMgv.Dot | src/math/mathMGV.h:78-80 | symmetric in its operands, and never negative on a vector with itself |
| MathMgv.DivScalar | src/math/mathMGV.h:42-44 | divides both components by the scalar, truncating; for non-negative components and a positive scalar that is the plain quotient |
| MathMgv.Cross | src/math/mathMGV.h:90-92 | the second component is the negation of the first |
| MathMgv.CrossAntisymmetric | src/math/mathMGV.h:90-92 | swapping the operands negates the result, and a vector crossed with a multiple of itself is zero |
| MathMgv.Lerp | src/math/mathMGV.h:94-96 | at 0 it gives the start and at 1 the end |
| MathMgv.Min | src/math/mathMGV.h:196-199 | each component is the smaller of the two, and one of them |
| MathMgv.Max | src/math/mathMGV.h:201-204 | each component is the larger of the two, and one of them |
| MathMgv.VectorAlgebra | src/math/mathMGV.h:30-36 | subtraction undoes addition; the dot product is symmetric and non-negative on a vector with itself (with lines 78-80) |
| MathMgv.Rect.constructor | src/math/mathMGV.h:137 | both corners at the origin |
| MathMgv.Rect.GrowToIncludeRect | src/math/mathMGV.h:141-146 | the corners become the field-by-field min and max with the other rectangle |
| MathMgv.Rect.GrowToIncludePoint | src/math/mathMGV.h:148-153 | the corners become the field-by-field min and max with the point, which then lies inside |
| Color.Channel | src/color/color.h:22-25 | a shifted and masked byte is below 256 |
| Color.FromHex | src/color/color.h:20-26 | every channel of a colour from a 32-bit word lies in [0, 1] |
| Color.FromHexUnpacks | src/color/color.h:18-26 | a word packed as 0xAARRGGBB decodes to each byte divided by 255, in the right channel |
| Color.Transparency | src/color/color.h:38-41 | keeps r, g, b and scales alpha |
| Color.ClampIndex | src/color/color.h:46-60 | the shade index is the hundreds digit of the index modulo 1000, at most 9 |
| Color.Shade | src/color/color.h:67-71 | a palette lookup returns the palette colour at the clamped index |
| Color.AsColor | src/color/color.h:73 | a palette used as a colour is its default shade |
| Color.ShadePeriodic | src/color/color.h:46-71 | shades repeat every 1000, and every index d*100+j with j < 100 selects colour d |
| NarryTree.AncestorPrefix | src/utils/narryTree.h:15 | in a well-formed forest an ancestor's own ancestry is a proper prefix of its descendant's (with lines 80) |
| NarryTree.OutsideGraft | src/utils/narryTree.h:24-27 | when the child is not an ancestor of the new parent, no node on the parent's path lies under the child |
| NarryTree.AddKeepsLinked | src/utils/narryTree.h:24-27 | adding a parentless child keeps parent pointers and child lists in agreement, and the child was not listed before |
| NarryTree.AddKeepsPaths | src/utils/narryTree.h:24-27 | grafting a subtree under a node outside it keeps every node off its own path and every path ending at the node's parent |
| NarryTree.AddKeepsPrefix | src/utils/narryTree.h:24-27 | grafting keeps each node's path extending its parent's path |
| NarryTree.AddKeepsRooted | src/utils/narryTree.h:24-27 | `AddChild` keeps the whole forest invariant |
| NarryTree.NewKeepsRooted | src/utils/narryTree.h:12 | a fresh node with no children or parent keeps the forest invariant |
| NarryTree.Without | src/utils/narryTree.h:47-56 | `erase` of the found entry: the result holds exactly the other elements |
| NarryTree.WithoutAt | src/utils/narryTree.h:47-56 | in a duplicate-free list, removing an element is cutting it out at its index |
| NarryTree.WithoutAbsent | src/utils/narryTree.h:51-53 | removing an element that is not there changes nothing |
| NarryTree.WithoutDistinct | src/utils/narryTree.h:56 | removal keeps a list free of duplicates |
| NarryTree.DetachKeepsDistinct | src/utils/narryTree.h:56 | after detaching, every child list is still duplicate-free |
| NarryTree.DetachKeepsLinked | src/utils/narryTree.h:42-58 | detaching clears the node's parent pointer and removes it from its parent's list, keeping both in agreement |
| NarryTree.DetachKeepsPaths | src/utils/narryTree.h:42-58 | after detaching, the node roots its own tree and every path still ends at its node's parent |
| NarryTree.DetachKeepsPrefix | src/utils/narryTree.h:42-58 | detaching keeps paths prefix-closed |
| NarryTree.DetachKeepsRooted | src/utils/narryTree.h:42-58 | `Detach` keeps the whole forest invariant |
| NarryTree.FirstWith | src/utils/narryTree.h:61-71 | the first node in a sequence whose id matches, or none exactly when no node matches |
| NarryTree.FirstWithAppend | src/utils/narryTree.h:61-71 | searching a concatenation searches the first part and then the second |
| NarryTree.ChildPath | src/utils/narryTree.h:24-38 | a listed child's path is its parent's path followed by the parent, so it is one level deeper |
| NarryTree.DescendantsBelow | src/utils/narryTree.h:61-71 | every node the search visits lies strictly below the node searched from |
| NarryTree.Search | src/utils/narryTree.h:61-71 | the depth-first loop finds the first node with the id in pre-order over the descendants, each child before its own subtree |
| NarryTree.IndexOf | src/utils/narryTree.h:47-49 | `find_if` yields the first position of the element |
| NarryTree.Unlink | src/utils/narryTree.h:55-57 | the erase and the pointer reset leave the forest invariant and change exactly the parent entry and the parent's list |
| NarryTree.Forest.constructor | src/utils/narryTree.h:12 | an empty forest |
| NarryTree.Forest.NewNode | src/utils/narryTree.h:34-38 | adds a node with no children and no parent |
| NarryTree.Forest.AddChild | src/utils/narryTree.h:24-32 | the child's parent becomes the node and it is appended last to the node's children; the forest stays well formed |
| NarryTree.Forest.Detach | src/utils/narryTree.h:42-58 | a root yields nothing and changes nothing; otherwise the node is handed back, removed from its parent's list and parentless |
| NarryTree.Forest.FindChild | src/utils/narryTree.h:61-71 | the first match in pre-order below the node, never the node itself, with the id asked for; no match is the thrown "Child not found" |
| SceneObject.DefaultTransform | src/components/object.h:26 | position and rotation at zero, scale one |
| SceneObject.Object.constructor | src/components/object.cpp:18-20 | keeps its uuid and name and has no components |
| SceneObject.Object.Get | src/components/object.h:76-84 | the component of that type, or none exactly when the type is absent |
| SceneObject.Object.Add | src/components/object.h:96-106 | a type already present yields null and changes nothing; otherwise the component is stored under its type and returned |
| SceneObject.Object.Remove | src/components/object.h:108-116 | the type's component is gone and nothing else changes; an absent type is a no-op |
| SceneObject.AddThenRemove | src/components/object.h:96-116 | adding then removing a new type restores the store, and other types are unaffected |
| SceneObject.Components | src/components/object.cpp:26-33 | one entry per stored type, each stored component listed |
| SceneObject.GetFromChildren | src/components/object.h:86-94 | the component of the first child that has the type, or none exactly when no child has it |
| SceneObject.Registry.constructor | src/components/object.h:57 | no live objects |
| SceneObject.Registry.Construct | src/components/object.cpp:18-20 | constructing an object registers it under its uuid |
| SceneObject.Registry.Destroy | src/components/object.cpp:22-24 | destroying an object unregisters exactly its uuid |
| SceneObject.Registry.Owner | src/components/object.cpp:14-16 | a component's owner is the registered object, and the `at` lookup throws exactly when the owner is gone |
| SceneObject.ConstructThenDestroy | src/components/object.cpp:18-24 | a registered object is found until destroyed, after which the registry is as before |
| SceneObject.Find | src/components/object.cpp:35-45 | a found object has the uuid asked for; nothing is found exactly when no object in the subtree has it; the object itself is checked first |
| SceneObject.FindFrom | src/components/object.cpp:39-44 | the child loop from a given child on finds a match exactly when one of those subtrees holds the uuid |
| SceneObject.FindFirstChild | src/components/object.cpp:39-44 | the search returns the match from the first child whose subtree holds the uuid |
| SceneObject.FindFromSkips | src/components/object.cpp:39-44 | children whose subtrees lack the uuid are passed over |
| Metadata.IdOf | src/assets/metadata.cpp:17-22 | the mapped index of a uuid, or 2^32-1 (`-1` as `uint32_t`) when unmapped |
| Metadata.UuidOf | src/assets/metadata.cpp:24-29 | the uuid mapped to an index, or the empty string |
| Metadata.Add | src/assets/metadata.cpp:12-15 | after adding, the uuid maps to the index and the index back to the uuid; every other uuid and index keeps its lookup |
| Metadata.RemapLeavesStale | src/assets/metadata.cpp:12-15 | remapping a uuid to a new index leaves the old index pointing at it as well |
| Metadata.Invert | src/assets/metadata.cpp:61-67 | the rebuilt inverse has exactly the mapped indices as keys and agrees with the forward map |
| Metadata.ExactInverse | src/assets/metadata.cpp:17-29 | for an injective mapping with its rebuilt inverse, looking up a uuid's index gives the uuid back |
| Metadata.LoadFile | src/assets/metadata.cpp:51-52 | the file read is `metadata/<name>.meta` |
| Metadata.SaveThenLoadFile | src/assets/metadata.cpp:72-74 | saving an asset at `dir/stem.ext` writes the file that loading `stem` reads (with lines 51-52) |
| Metadata.Metadata.constructor | src/assets/metadata.h:14 | keeps the path with both mappings empty |
| Metadata.Metadata.AddMeshMapping | src/assets/metadata.cpp:12-15 | updates both mesh maps as `Add` |
| Metadata.Metadata.GetMeshID | src/assets/metadata.cpp:17-22 | the mesh index lookup with the `-1` default |
| Metadata.Metadata.GetMeshUUID | src/assets/metadata.cpp:24-29 | the mesh uuid lookup with the empty default |
| Metadata.Metadata.AddMaterialMapping | src/assets/metadata.cpp:31-34 | updates both material maps as `Add` |
| Metadata.Metadata.GetMaterialID | src/assets/metadata.cpp:36-41 | the material index lookup with the `-1` default |
| Metadata.Metadata.GetMaterialUUID | src/assets/metadata.cpp:43-48 | the material uuid lookup with the empty default |
| Metadata.Metadata.Save | src/assets/metadata.cpp:71-80 | writes the path and both forward maps to the file named from the path's stem |
| Metadata.Load | src/assets/metadata.cpp:50-69 | no file gives null; otherwise the path and forward maps come from the document and each inverse is rebuilt to agree with its forward map |
| AssetManager.Fallback | src/assets/manager.cpp:69-89 | a fallback texture is a 1 by 1 texture with the given id and name and one RGBA pixel |
| AssetManager.Fallbacks | src/assets/manager.cpp:69-89 | the three fallbacks are keyed by their own ids and named black, white and baseNormal, a later registration winning on a shared id |
| AssetManager.ThreeFallbacks | src/assets/manager.cpp:73-89 | with three distinct ids the store starts with exactly three textures |
| AssetManager.Manager.constructor | src/assets/manager.cpp:66-93 | no meshes or materials, and the three fallback textures |
| AssetManager.Manager.AddMesh | src/assets/manager.cpp:13-15 | the mesh is stored under its own id, replacing any earlier one |
| AssetManager.Manager.GetMesh | src/assets/manager.cpp:17-22 | the stored mesh, or null exactly when the id is absent |
| AssetManager.Manager.RemoveMesh | src/assets/manager.cpp:24-26 | exactly that id is removed; an absent id changes nothing |
| AssetManager.Manager.AddMaterial | src/assets/manager.cpp:28-30 | the material is stored under its own id |
| AssetManager.Manager.GetMaterial | src/assets/manager.cpp:32-37 | the stored material, or null exactly when the id is absent |
| AssetManager.Manager.RemoveMaterial | src/assets/manager.cpp:39-41 | exactly that id is removed |
| AssetManager.Manager.AddTexture | src/assets/manager.cpp:43-45 | the texture is stored under its own id |
| AssetManager.Manager.GetTexture | src/assets/manager.cpp:47-52 | the stored texture, or null exactly when the id is absent |
| AssetManager.Manager.RemoveTexture | src/assets/manager.cpp:54-56 | exactly that id is removed |
| AssetManager.Manager.GetRandomMesh | src/assets/manager.cpp:58-64 | null exactly when there are no meshes, otherwise one of the stored meshes |
| Importer.DefaultTexture | src/assets/importer.cpp:201-217 | a material slot without a texture gets placeholder 3 for normals, 1 for metalness and roughness, 2 for base colour, emissive and lightmap |
| Importer.DefaultsAreFallbacks | src/assets/importer.cpp:201-217 | each placeholder is one of the store's fallbacks: baseNormal for normals, black for metalness and roughness, white otherwise |
| Importer.Split | src/assets/importer.cpp:39-40 | the directory is the text before the last `/` and the name the text after it |
| Importer.SplitParts | src/assets/importer.cpp:39-40 | `dir/name` with a slash-free name splits into dir and name |
| Importer.SplitWithoutSlash | src/assets/importer.cpp:39-40 | with no slash, `npos` makes both parts the whole path |
| Importer.ChildOk | src/assets/importer.cpp:230-231 | every child of a well-formed node is well formed |
| Importer.TextureSize | src/assets/importer.cpp:49-58 | the texture size is at least both sides of every diffuse texture and, unless 0, equals a side of one of them |
| Importer.FindKey | src/assets/importer.cpp:183-190 | the key of an entry that matches, or none exactly when no entry matches (with lines 114-120, 130-136) |
| Importer.ResolvedExtend | src/assets/importer.cpp:177-218 | material slots resolved against the textures stay resolved when textures are only added |
| Importer.Slot | src/assets/importer.cpp:177-218 | a slot with a texture points at an entry for `dir/path`, reused when recorded or new otherwise; a slot without one gets its placeholder and adds nothing |
| Importer.AddSlots | src/assets/importer.cpp:172-219 | the six texture types are resolved in order and the textures only grow, keeping paths unique |
| Importer.AddMaterial | src/assets/importer.cpp:137-221 | a new material entry with the assimp index and name is added under a fresh uuid, every slot resolved, and nothing else changes |
| Importer.AddMeshRef | src/assets/importer.cpp:108-226 | the reference names a mesh entry with the assimp mesh index and a material entry with that mesh's material index, each reused when recorded |
| Importer.RefGrows | src/assets/importer.cpp:108-226 | earlier references stay valid as the store grows |
| Importer.AddNodeMeshes | src/assets/importer.cpp:108-227 | the node's references correspond one-to-one, in order, to its meshes |
| Importer.MatchSnoc | src/assets/importer.cpp:223-226 | appending a matching reference extends the correspondence |
| Importer.TransformOf | src/assets/importer.cpp:93-105 | a node's recorded transform, or the default one |
| Importer.DescribesGrow | src/assets/importer.cpp:108-227 | recorded objects stay described when the store only grows |
| Importer.PushChildren | src/assets/importer.cpp:230-232 | the children are pushed in order on top of the stack, each with the new object as parent, and the pending node count grows by the subtree sizes |
| Importer.PushedOk | src/assets/importer.cpp:230-232 | pushed entries are well formed and point at a recorded parent |
| Importer.Popped | src/assets/importer.cpp:72-74 | the popped node is well formed and its parent is recorded and lists it |
| Importer.AddObject | src/assets/importer.cpp:98-106 | recording an object with its parent, name, transform and mesh references keeps the object tree linked to the first object as root |
| Importer.WalkPop | src/assets/importer.cpp:72-74 | popping keeps the walk invariant |
| Importer.WalkStep | src/assets/importer.cpp:72-232 | one iteration of the node loop keeps the walk invariant |
| Importer.ImportNodes | src/assets/importer.cpp:70-233 | the walk records one object per scene node, linked under the root node's object, describing its node, with no lights or cameras yet |
| Importer.KindNameInjective | src/assets/importer.cpp:240 | distinct light kinds get distinct names |
| Importer.LightOf | src/assets/importer.cpp:237-273 | a light's record has its name and kind, and direction and intensity 1 exactly for a directional light |
| Importer.ProjectionOf | src/assets/importer.cpp:288-303 | orthographic exactly when the width is non-zero, then symmetric about the origin; perspective keeps the field of view; both keep near and far |
| Importer.SkeletonKeeps | src/assets/importer.cpp:275-283 | attaching lights and cameras leaves the object tree as it was |
| Importer.Attach | src/assets/importer.cpp:275-283 | the light or camera is appended to the first object with its name, and nothing changes when no object has it (with lines 306-314) |
| Importer.LightReach | src/assets/importer.cpp:235-284 | every light handled so far whose name is taken is attached |
| Importer.LightNames | src/assets/importer.cpp:235-284 | each attached light sits on an object bearing its name |
| Importer.RecordStep | src/assets/importer.cpp:237-273 | each handled light is recorded under its own uuid |
| Importer.AttachKeeps | src/assets/importer.cpp:275-283 | attaching a light leaves cameras and the tree alone |
| Importer.LightStep | src/assets/importer.cpp:235-284 | one iteration of the light loop keeps its invariant |
| Importer.ImportLights | src/assets/importer.cpp:235-284 | every light gets a fresh uuid and is recorded and attached to the first object bearing its name |
| Importer.CameraRecordStep | src/assets/importer.cpp:288-303 | each handled camera is recorded under its own uuid |
| Importer.CameraKeeps | src/assets/importer.cpp:306-314 | attaching a camera leaves lights and the tree alone |
| Importer.CameraReach | src/assets/importer.cpp:286-315 | every camera handled so far whose name is taken is attached |
| Importer.CameraNames | src/assets/importer.cpp:286-315 | each attached camera sits on an object bearing its name |
| Importer.CameraStep | src/assets/importer.cpp:286-315 | one iteration of the camera loop keeps its invariant |
| Importer.ImportCameras | src/assets/importer.cpp:286-315 | every camera gets a fresh uuid and is recorded and attached like a light |
| Importer.ImportScene | src/assets/importer.cpp:61-315 | the document written describes the scene: nodes, meshes, materials, textures, lights and cameras as above |
| Importer.NamedSame | src/assets/importer.cpp:275-314 | attaching does not change which names are taken |
| Importer.LightsSurvive | src/assets/importer.cpp:286-315 | the camera loop leaves every attached light in place |
| Importer.Assemble | src/assets/importer.cpp:61-315 | the objects, lights and cameras together form the imported document |
| Importer.TypeUsagesDistinct | src/assets/importer.cpp:172-175 | the six recorded texture types map to six different material usages (with lines 411) |
| Importer.BindTextures | src/assets/importer.cpp:409-413 | each recorded slot binds its usage to the stored texture, or to null when the store lacks it |
| Importer.TextureAssetOf | src/assets/importer.cpp:447-454 | a loaded texture keeps its uuid, is named after the file and has the image's size and pixels |
| Importer.ImportedLoadable | src/assets/importer.cpp:61-315 | a document the importer wrote is loadable: every reference resolves |
| Importer.RestrictAll | src/assets/importer.cpp:330-383 | restricting a map to all its keys gives the map |
| Importer.MeshAssets | src/assets/importer.cpp:330-383 | one mesh asset per recorded mesh, keyed by its uuid and named after the assimp mesh |
| Importer.TextureAssets | src/assets/importer.cpp:425-465 | one texture asset per recorded texture, built from its image |
| Importer.Decodes | src/assets/importer.cpp:432-443 | no failure exactly when every image decodes; a failure names a path whose image does not |
| Importer.MaterialAssets | src/assets/importer.cpp:396-415 | one material asset per recorded material, its slots bound against the store |
| Importer.StoreMeshes | src/assets/importer.cpp:382 | the store gains exactly the new meshes |
| Importer.StoreTextures | src/assets/importer.cpp:459-465 | the store gains exactly the new textures |
| Importer.StoreMaterials | src/assets/importer.cpp:414 | the store gains exactly the new materials |
| Importer.Importer.constructor | src/assets/importer.cpp:38-59 | splits the path, keeps the scene, computes a texture size covering every diffuse texture, and starts with nothing recorded or loaded |
| Importer.Importer.LoadMeshes | src/assets/importer.cpp:327-385 | loads every recorded mesh once; a second call changes nothing |
| Importer.Importer.LoadTextures | src/assets/importer.cpp:420-472 | loads every recorded texture once; an image that does not decode stores none of them (the source throws inside the parallel `for_each`, which ends the process; the model returns the error) |
| Importer.Importer.LoadMaterials | src/assets/importer.cpp:387-418 | loads the textures first, then every recorded material once; fails exactly when the textures fail |
| Importer.Importer.Record | src/assets/importer.cpp:61-315 | writes the metadata document afresh |
| Importer.Importer.Import | src/assets/importer.cpp:61-324 | records the document, then loads meshes and materials, each at most once; when the materials load, a prefab of the importer's name and document is added to the prefab list, otherwise the list is unchanged |
| Importer.Importer.LoadAndShelve | src/assets/importer.cpp:321-323 | loads the meshes and then the materials, each at most once; the prefab is added exactly when the materials load |
| Importer.Prefabs.constructor | src/assets/importer.cpp:323 | the prefab list starts empty |
| Importer.Prefabs.AddPrefab | src/assets/importer.cpp:323 | appends the prefab, keeping the ones before it |
| Prefab.ParseLight | src/assets/prefab.cpp:55-78 | point lights get the fixed colour, attenuation and range; directional lights white with their direction and intensity; any other kind throws "Unknown light type: " and its name |
| Prefab.RecordedLightTypes | src/assets/prefab.cpp:55-78 | a light the importer recorded parses exactly when it is directional or point, a directional one with intensity 1 |
| Prefab.ImportedWellFormed | src/assets/prefab.cpp:21-115 | every document the importer writes is well formed for loading |
| Prefab.RecordedObject | src/assets/prefab.cpp:39-113 | each recorded object's parent, mesh, light and camera references resolve |
| Prefab.RecordedReadable | src/assets/prefab.cpp:58-71 | a recorded light carries the fields its kind is read with |
| Prefab.Lookup | src/assets/prefab.cpp:49-50 | the manager's lookup: the asset, or null exactly when absent |
| Prefab.LoadLights | src/assets/prefab.cpp:53-81 | all of an object's lights load exactly when each parses, and a failure carries a failing light's message |
| Prefab.LoadCameras | src/assets/prefab.cpp:83-106 | each recorded camera becomes a camera with the recorded projection |
| Prefab.LoadTarget | src/assets/prefab.cpp:44-52 | the render target lists each referenced mesh and material in order |
| Prefab.CreateEntities | src/assets/prefab.cpp:22-36 | one entity per object with its name and transform and nothing attached |
| Prefab.EquipStep | src/assets/prefab.cpp:43-106 | equipping one more object keeps every equipped object's components right |
| Prefab.ParentStep | src/assets/prefab.cpp:108-113 | after one more object, each handled object with a parent is listed among its parent's children |
| Prefab.Adopt | src/assets/prefab.cpp:109 | the child is appended to the parent's children and nothing else changes |
| Prefab.AdoptKeeps | src/assets/prefab.cpp:109 | adoption keeps the equipped components |
| Prefab.LinkStep | src/assets/prefab.cpp:39-110 | one iteration for an object with a parent keeps the loop invariant |
| Prefab.RootStep | src/assets/prefab.cpp:39-113 | one iteration for a root object records it as the root |
| Prefab.Load | src/assets/prefab.cpp:21-115 | loading succeeds exactly when every object's lights parse; then every entity is built, equipped and linked under its parent; otherwise the error is some object's failing light |
| GuiElement.Other | src/gui/elements/element.cpp:21-27 | the cross axis differs from the axis |
| GuiElement.SetAlong | src/gui/elements/element.cpp:45 | setting a size along one axis leaves the other axis alone |
| GuiElement.SetChildrenAlong | src/gui/elements/element.cpp:46 | setting the children's extent along one axis changes nothing else (with lines 56) |
| GuiElement.Mins | src/gui/elements/element.cpp:19-28 | the children's minimum sizes along an axis, in order |
| GuiElement.LargestIsMaximum | src/gui/elements/element.cpp:23 | the running `max` from zero bounds every entry and is zero or one of them (with lines 25) |
| GuiElement.MinSizeOf | src/gui/elements/element.cpp:15-39 | the minimum size sums children along the direction and takes their maximum across it, then adds padding and spacing when there are children |
| GuiElement.MinSizeHoldsChildren | src/gui/elements/element.cpp:19-39 | across the direction, the minimum size holds every child's minimum plus padding, and is tight |
| GuiElement.Create | src/gui/elements/element.cpp:8-40 | a new element keeps style and children, takes the style's size as base size, starts at zero size and position, and gets its minimum size |
| GuiElement.FitStep | src/gui/elements/element.cpp:48-50 | one child fitted extends the running sum along the direction or the running maximum across it (with lines 58-60) |
| GuiElement.FittingFits | src/gui/elements/element.cpp:51-68 | with children fitted, growing and shrinking elements take their children's extent plus padding and fixed ones their base size |
| GuiElement.Fit | src/gui/elements/element.cpp:42-69 | the fit pass leaves the element fitted along the axis, changes only that axis, and returns its new size |
| GuiElement.FitChildren | src/gui/elements/element.cpp:48-60 | every child is fitted in order and the need is computed from the fitted children |
| GuiElement.FitDetermined | src/gui/elements/element.cpp:42-69 | the fit result is unique: two fitted results of the same element are equal |
| GuiElement.SizesMatch | src/gui/elements/element.cpp:42-69 | sizes that agree on both axes are equal |
| GuiElement.FitKeepsOtherAxis | src/gui/elements/element.cpp:173-174 | fitting one axis keeps a fit on the other axis |
| GuiElement.AlongKept | src/gui/elements/element.cpp:48-60 | children with the same extents give the same sum and maximum |
| GuiElement.Resize | src/gui/elements/element.cpp:104 | sets the current size along one axis and changes nothing else (with lines 113) |
| GuiElement.CountGrowable | src/gui/elements/element.cpp:76-81 | counts the growable children |
| GuiElement.SumResize | src/gui/elements/element.cpp:104 | resizing one child changes the sum by the difference |
| GuiElement.ShareFits | src/gui/elements/element.cpp:99 | at most the growable count of equal shares never exceed the room |
| GuiElement.SmallestShare | src/gui/elements/element.cpp:84-99 | the amount added in one round is not negative |
| GuiElement.FrameStep | src/gui/elements/element.cpp:101-108 | the resize loop only enlarges growable children |
| GuiElement.BudgetStep | src/gui/elements/element.cpp:101-108 | each enlarged child uses up its share of the remaining room |
| GuiElement.GrowRound | src/gui/elements/element.cpp:84-108 | one round only enlarges growable children, and the room used plus the room left equals the room before |
| GuiElement.SharedStep | src/gui/elements/element.cpp:83-109 | rounds compose: the room accounting holds across the while loop |
| GuiElement.Distribute | src/gui/elements/element.cpp:74-109 | the spare room along the direction goes only to growable children and never exceeds what was spare |
| GuiElement.GrowableKept | src/gui/elements/element.cpp:83-109 | resizing keeps which children are growable |
| GuiElement.Stretch | src/gui/elements/element.cpp:110-116 | across the direction every growable child takes the inner extent and the others keep theirs |
| GuiElement.Deepest | src/gui/elements/element.cpp:118-120 | the depth bound covers every child |
| GuiElement.DeepestKept | src/gui/elements/element.cpp:118-120 | resizing does not change depths |
| GuiElement.GrowPass | src/gui/elements/element.cpp:71-121 | the grow pass distributes or stretches the children, then grows each child's subtree |
| GuiElement.GrownKeepsSize | src/gui/elements/element.cpp:71-121 | an element's own size is not changed by its grow pass |
| GuiElement.SameSum | src/gui/elements/element.cpp:71-121 | children of unchanged size keep the sum |
| GuiElement.GrownStep | src/gui/elements/element.cpp:118-120 | growing every resized child completes the element's pass |
| GuiElement.SpareBound | src/gui/elements/element.cpp:74-109 | after distribution the children along the direction take at most their old sum plus the spare room |
| GuiElement.GrowChildren | src/gui/elements/element.cpp:118-120 | each child's subtree is grown |
| GuiElement.Move | src/gui/elements/element.cpp:131-136 | moves a point along one axis only |
| GuiElement.SetPosition | src/gui/elements/element.cpp:123-138 | the element takes the position and its children are placed from the padded corner on |
| GuiElement.PlaceChildren | src/gui/elements/element.cpp:129-137 | each child starts at the inner corner moved by the sizes and spacing of the children before it |
| GuiElement.PlacedOnlyMoves | src/gui/elements/element.cpp:123-138 | placing changes positions only |
| GuiElement.PlacedInOrder | src/gui/elements/element.cpp:129-137 | with non-negative sizes and spacing, children do not overlap along the direction and are aligned across it |
| GuiElement.OffsetGrows | src/gui/elements/element.cpp:132 | a later child's offset is past an earlier child's end (with lines 135) |
| GuiElement.RecreateRequired | src/gui/elements/element.cpp:140-169 | reports whether any descendant requires recreation and rebuilds the minimum sizes where one does |
| GuiElement.RecreateChildren | src/gui/elements/element.cpp:143-145 | every child is asked, in order; when none requires recreation nothing changes |
| GuiElement.RequiredNeedsOverride | src/gui/elements/element.cpp:140-169 | the base rule never requires recreation on its own: only an overriding element starts it |
| GuiElement.AnyRequiredNeedsOverride | src/gui/elements/element.cpp:143-145 | some child requiring recreation means some child overrides the rule |
| GuiElement.ComputeLayout | src/gui/elements/element.cpp:171-178 | the layout is fit horizontally, then vertically, grow horizontally, then vertically, then position |
| GuiElement.CornerRadius | src/gui/elements/element.cpp:185-190 | the drawn radius is the style's radius, capped at half the smaller side |
| SetSelection.SupersedesTransitive | src/gui/elements/setSelection.h:110 | the bit-superset test is transitive |
| SetSelection.SupersedesAntisymmetric | src/gui/elements/setSelection.h:110 | two values each a superset of the other are equal |
| SetSelection.MinimalFlagSet | src/gui/elements/setSelection.h:103-119 | the erase-and-restart loop ends with the values that are not a strict superset of another |
| SetSelection.EraseKeepsMinimal | src/gui/elements/setSelection.h:110-113 | erasing a value that is a superset of another keeps the minimal values |
| SetSelection.MinimalIsAntichain | src/gui/elements/setSelection.h:103-119 | the result is a subset, no member contains another, and every minimal value is kept |
| SetSelection.MinimalBelow | src/gui/elements/setSelection.h:103-119 | every input value contains some kept value |
| SetSelection.Selection.constructor | src/gui/elements/setSelection.h:18-23 | views the set, with no value chosen and one row per member |
| SetSelection.Selection.SetFull | src/gui/elements/setSelection.h:84-92 | true exactly when every enumerator is in the set |
| SetSelection.Selection.Recreate | src/gui/elements/setSelection.h:26-80 | clears the chosen value and has one row per member |
| SetSelection.Selection.Remove | src/gui/elements/setSelection.h:41-43 | the minus button removes that value |
| SetSelection.Selection.Choose | src/gui/elements/setSelection.h:59 | the drop-down sets the chosen value |
| SetSelection.Selection.Add | src/gui/elements/setSelection.h:66-72 | the plus button does nothing for the zero value; otherwise adds the chosen value and clears it, so zero never enters the set |
| FlagSetSelection.Editor.constructor | src/gui/elements/setSelection.h:124-142 | one checkbox per minimal non-zero flag, ticked exactly when the mask has all its bits |
| FlagSetSelection.Editor.Toggle | src/gui/elements/setSelection.h:159-165 | the checkbox takes the new state and the mask gains or loses the flag's bits |
| FlagSetSelection.TickSets | src/gui/elements/setSelection.h:162 | after ticking, all the flag's bits are set |
| FlagSetSelection.TickKeepsOthers | src/gui/elements/setSelection.h:162 | ticking leaves the other bits alone |
| FlagSetSelection.TickKeepsDisjoint | src/gui/elements/setSelection.h:162 | ticking leaves a disjoint flag's state alone |
| FlagSetSelection.UntickClears | src/gui/elements/setSelection.h:164 | after unticking, none of the flag's bits are set |
| FlagSetSelection.UntickKeepsOthers | src/gui/elements/setSelection.h:164 | unticking leaves the other bits alone |
| FlagSetSelection.UntickKeepsDisjoint | src/gui/elements/setSelection.h:164 | unticking leaves a disjoint flag's state alone |
| GuiManager.Without | src/gui/manager.cpp:30-32 | `std::erase` drops every copy of the layer and keeps the others with their counts |
| GuiManager.WithoutAbsent | src/gui/manager.cpp:30-32 | removing a layer that was never added changes nothing |
| GuiManager.AddThenRemove | src/gui/manager.cpp:26-32 | removing a layer just added restores the list |
| GuiManager.Layers.constructor | src/gui/manager.h:66-67 | starts with no layers |
| GuiManager.Layers.AddLayer | src/gui/manager.cpp:26-28 | appends the layer |
| GuiManager.Layers.RemoveLayer | src/gui/manager.cpp:30-32 | removes every copy of the layer |
| GuiManager.CheckResult | src/gui/manager.cpp:98-106 | success is silent, a negative result aborts and a positive one is only logged |
| GuiManager.Decimal | src/gui/manager.cpp:117 | the size written out is a non-empty string of digits |
| GuiManager.DecimalRoundTrip | src/gui/manager.cpp:117 | reading the written size back gives the size (with lines 133) |
| GuiManager.SizeText | src/gui/manager.cpp:117 | the size text holds no separator the name parser looks for (with lines 133) |
| GuiManager.TypeName | src/gui/manager.h:34-41 | a font type's name holds no separator |
| GuiManager.FontKeyInjective | src/gui/manager.cpp:133 | distinct (type, size) pairs give distinct font names |
| GuiManager.SplitAtUnderscore | src/gui/manager.cpp:117 | a name joined at one underscore splits back into its parts (with lines 133) |
| GuiManager.RobotoNamedAsLookedUp | src/gui/manager.cpp:151-158 | a registered Roboto font gets exactly the name `GetFont` looks up for its type and size (with lines 114-117, 133) |
| GuiManager.RobotoFile | src/gui/manager.cpp:114 | the last path component is the font file |
| GuiManager.RobotoStyle | src/gui/manager.cpp:115 | after the last dash comes the style and the extension |
| GuiManager.RobotoStem | src/gui/manager.cpp:116 | before the last dot is the style name |
| GuiManager.Fonts.constructor | src/gui/manager.cpp:142-149 | the atlas starts empty |
| GuiManager.Fonts.AddFont | src/gui/manager.cpp:108-130 | the atlas gains one font, named by the file's style and the size |
| GuiManager.Fonts.GetFont | src/gui/manager.cpp:132-140 | the first font with the looked-up name, or the first font when none has it |
| GuiManager.Popups.constructor | src/gui/manager.h:72-85 | starts with no popups |
| GuiManager.Popups.RegisterPopup | src/gui/manager.h:72-74 | `emplace` adds a new name and leaves an existing one alone |
| GuiManager.Popups.GetPopup | src/gui/manager.h:76-81 | the popup under the name, or none exactly when the name is absent |
| GuiManager.Popups.UnregisterPopup | src/gui/manager.h:83-85 | removes the name; an absent name changes nothing |
| ScriptAssembly.Loaded | src/scripting/assembly.h:28-34 | the file name without extension keys the cache; a cached assembly is returned unchanged, otherwise a new one is added and no other entry changes |
| ScriptAssembly.LoadIdempotent | src/scripting/assembly.h:28-34 | loading a path with the same key again returns the same assembly and changes nothing |
| ScriptAssembly.KeyOfLibrary | src/scripting/assembly.h:29 | the key of `dir/name.dll` is `name` |
| ScriptAssembly.Cache.constructor | src/scripting/assembly.h:57 | the cache starts empty |
| ScriptAssembly.Cache.Load | src/scripting/assembly.h:28-34 | the cache and result are those of loading the path |
| ScriptAssembly.Cache.Unload | src/scripting/assembly.h:36-43 | removes the name and reports whether it was present; an absent name changes nothing |
| ScriptAssembly.Cache.UnloadAll | src/scripting/assembly.h:45-50 | the cache ends empty |
| ScriptAssembly.Cache.Get | src/scripting/assembly.h:52-54 | `Get(name)` is `Load` of the name as a path |
| ScriptAssembly.LoadThenUnload | src/scripting/assembly.h:28-43 | unloading a freshly loaded assembly restores the cache |
| ScriptRemote.PairedCounts | src/scripting/remote.h:56-61 | paired maps have equal sizes |
| ScriptRemote.AddAsWritten | src/scripting/remote.h:63-69 | throws exactly when the managed object is registered, otherwise writes both maps without checking the native side |
| ScriptRemote.AddAsWrittenLeavesStaleEntry | src/scripting/remote.h:25-33 | re-adding a native object that already has a wrapper breaks the pairing, and destroying it leaves a stale managed entry (with lines 63-69) |
| ScriptRemote.AddChecked | src/scripting/remote.h:63-69 | fails exactly when either side is already registered, otherwise links both |
| ScriptRemote.AddCheckedKeepsPaired | src/scripting/remote.h:63-69 | the checked add keeps the maps paired and grows both by one |
| ScriptRemote.Destroyed | src/scripting/remote.h:25-33 | destruction removes the object and its wrapper's managed handle when registered, otherwise changes nothing |
| ScriptRemote.DestroyedKeepsPaired | src/scripting/remote.h:25-33 | destruction keeps the maps paired and shrinks both by one |
| ScriptRemote.Registry.constructor | src/scripting/remote.h:74-75 | both maps start empty and paired |
| ScriptRemote.Registry.LocalInstance | src/scripting/remote.h:35-40 | the native object for a managed one, or a throw when it is unknown; its wrapper points back |
| ScriptRemote.Registry.RemoteInstance | src/scripting/remote.h:42-50 | returns the existing wrapper, or makes one and registers both directions; afterwards the lookup round-trips |
| ScriptRemote.Registry.LocalInstanceCount | src/scripting/remote.h:56-58 | with paired maps, equals the number of wrappers |
| ScriptRemote.Registry.RemoteInstanceCount | src/scripting/remote.h:59-61 | with paired maps, equals the number of managed objects |
| ScriptRemote.Registry.PairedCountsIfValid | src/scripting/remote.h:56-61 | the two counts agree while the registry is paired |
| ScriptRemote.Registry.AddRemoteInstance | src/scripting/remote.h:63-69 | the checked add: fails on either duplicate without change, otherwise links both directions and keeps the pairing |
| ScriptRemote.Registry.Destroy | src/scripting/remote.h:25-33 | the destructor: leaves the maps paired and without the object |
| SceneManager.RunAllAppend | src/ecs/sceneManager.cpp:33-38 | running two queues in turn is running their concatenation |
| SceneManager.Slot.constructor | src/ecs/sceneManager.cpp:14-19 | the static instance starts empty |
| SceneManager.Slot.Get | src/ecs/sceneManager.cpp:14-19 | the instance, or a throw when none is set |
| SceneManager.Manager.constructor | src/ecs/sceneManager.cpp:9-13 | registers itself as the instance, with no events and a new scene loaded |
| SceneManager.Manager.GetLoadedScene | src/ecs/sceneManager.cpp:20-26 | the loaded scene, or a throw exactly when none is loaded |
| SceneManager.Manager.IsSceneLoaded | src/ecs/sceneManager.cpp:26 | true exactly when `GetLoadedScene` does not throw |
| SceneManager.Manager.NewScene | src/ecs/sceneManager.cpp:27-32 | the new scene becomes the loaded one |
| SceneManager.Manager.RegisterEvent | src/ecs/sceneManager.cpp:39 | queues the event last |
| SceneManager.Manager.Update | src/ecs/sceneManager.cpp:33-38 | runs every queued event in order and empties the queue |
| ShaderManager.CachedShader.constructor | src/shader/manager.cpp:107-112 | a cached shader keeps its path and resolved stage |
| ShaderManager.Manager.AsWritten | src/shader/manager.cpp:9-29 | as written: the current path is the default search path, the cache is empty, and the instance is never set |
| ShaderManager.Manager.constructor | src/shader/manager.cpp:9-29 | the same, and the manager registers itself as the instance |
| ShaderManager.Manager.Get | src/shader/manager.cpp:107-112 | a cached shader is returned unchanged; otherwise a new one is made and cached under its path, or the error is passed on |
| ShaderManager.Manager.Shader | src/shader/manager.h:22-30 | the same cache behaviour as `Get` |
| ShaderManager.Manager.Path | src/shader/manager.h:39 | the current path |
| ShaderManager.Slot.constructor | src/shader/manager.h:42 | the static instance starts empty |
| ShaderManager.Slot.Get | src/shader/manager.h:32-37 | the instance, or a throw when none is set |
| ShaderManager.AsWrittenGetThrows | src/shader/manager.h:32-37 | after constructing a manager as written, `Get` still throws (with lines 42) |
| ShaderManager.RegisteredGetFinds | src/shader/manager.cpp:9-29 | with the registration, `Get` returns the manager just made |
| Text.LastOf | src/gui/manager.cpp:114-116 | `find_last_of`: the position of the last separator, with none after it, or none exactly when the string holds no separator |
| Text.LastAtSeparator | src/gui/manager.cpp:114-116 | in `stem + sep + tail` with a separator-free tail, the last separator sits right after the stem |
| Bits.Not64 | src/memory/buffer.h:142 | `~x` on 64 bits: the complement within 64 bits |
| Bits.Add64 | src/memory/buffer.h:142 | `+` on 64 bits: the sum when it fits, the sum less 2^64 when it wraps |
| Bits.Mul64 | src/memory/buffer.h:120 | `*` on 64 bits: always below 2^64, and the product itself when it fits |
| Bits.AndMask64 | src/memory/buffer.h:142 | masking with `~(2^k - 1)` clears the low `k` bits |
| Bits.ClearLowIsFloor | src/memory/buffer.h:142 | clearing the low `k` bits rounds down to a multiple of 2^k |
| RenderPass.FrameBuffersFor | src/graphics/renderPass.cpp:49-72 | one framebuffer per image |
| GraphicsPipeline.StagesFor | src/graphics/pipeline.cpp:170-176 | one stage per listed shader, in order |

## Left out

- Vulkan, GLFW, ImGui, assimp, stb_image, Slang, SPIRV-Cross, glslang, Mono and entt calls are not modelled. Handles are plain numbers. What the driver or library reports is a parameter: acquire and present results, memory types, queue family properties, surface capabilities, reflection output and the imported scene.
- Command recording is not modelled: barriers, blits, copies, draws, dispatches, begin and end of passes, submission, fences and semaphores. Only the values the source computes for those calls are modelled, such as the barrier's masks and stages, the blit regions and the copy region.
- Renderer Draw (src/renderer.cpp:290-304, src/graphics/renderer.cpp:53-65) only records command buffers and warns when no frame is started. It changes no modelled state, so it is not modelled.
- Graphics and compute `Pipeline::Bind`, `BindDescriptorSet(s)`, `PushConstants` and the destructors are command recording or handle release, and are not modelled.
- File I/O is not modelled: shader source reading and compilation, image decoding, JSON reading and writing of metadata and prefabs, and the Mono image loading behind `Assembly`. A file's content is a parameter.
- CPU concurrency is not modelled. The texture array's worker threads run one after another in the model. The importer's parallel texture load is a sequential map. The device's per-thread command pools take the thread id as a parameter.
- TextureArray.LoadAll: the source's worker threads all insert into the one `std::unordered_map` `m_imageIndices` (src/graphics/objects/textureArray.cpp:34) without a lock, which is a data race; the model runs the threads one after another, so it describes only the outcome a race-free run would have.
- Floating point in the GUI layout and the colours is modelled by `real`. Rounding, NaN and infinities are not modelled.
- Vector, Aabb, Rect and MathMgv: every vector is over unbounded `int`, whatever the source's component type. The float vectors (`Vector3<f32>` in the AABB, `Vector2<f32>` in the rects, `Vector2<float>` in `MathMgv::Rect`) are therefore modelled over integers: division truncates, and float rounding, NaN and infinities are not modelled. For the integer instances, the 2^32 wrap of the `u32` aliases (`Vector2u`, `Vector3u`, `Vector4u`) and signed 32-bit overflow are not modelled either.
- Vector.Div, Vector.DivScalar and MathMgv.DivScalar: the truncated quotient they state is the source's result only for integer component types; for float components the source divides exactly.
- Vector.SubUndoesAdd and Vector.DivUndoesMulScalar: they hold over unbounded integers; under the `u32` wrap of the unsigned aliases the multiply-then-divide round trip fails once the product passes 2^32.
- Randomness is not modelled. The UUID generator is a parameter.
- AssetManager.Manager.GetRandomMesh: the source returns the mesh at `begin()` of its `boost::unordered_map` (src/assets/manager.cpp:58-64), whose order is unspecified; the model picks some stored mesh, so it does not promise which one.
- The entity registry and `Scene::Setup` behind the scene manager are not modelled. A scene is an opaque value and an event is a function on a world value.
- Object AddChild/RemoveChild (src/components/object.h:73-74) are declared without a definition in the source, and are not modelled.
- GuiElement: the element tree is held as values, without parent pointers. `Render` is not modelled beyond the corner-radius clamp, and `ResetState` is not modelled. The header defining the Grow/Shrink size sentinels is not part of this model; they are the values -1 and -2 here. An element that overrides `RecreateRequired` is abstracted by the `Custom` kind.
- GuiElement.Distribute: the grow loop runs at most `fuel` rounds. Over floats the source loop need not end, so the model does not claim that it ends.
- FlagSetSelection: the row widgets that `Recreate` builds are not modelled. The mask the editor edits is a field of the editor, not a pointer shared with its owner.
- FlagSetSelection.Editor.Toggle: unticking complements the flag over all 32 bits. Vulkan-Hpp's `~` on a flags type complements within the type's `allFlags`, so the source also clears any set bit outside the declared flags, which the model keeps.
- ShaderManager.Manager.Get: the cache is keyed by the path string. The source keys it by `std::filesystem::path`, which compares element by element, so two spellings of one path (`a//b.vert` and `a/b.vert`) are one entry there and two here.
- CoreInput.Input.GetKeyState: `operator[]` on the state map inserts a NotPressed entry for a code never reported; the model reads NotPressed without inserting, which no other operation can tell apart. The same holds for the other getters of both `Input` versions.
- GuiManager.Fonts.GetFont: `std::to_string(type)` on the scoped `FontType` has no standard overload. The model takes the enumerator's name, which is the name `AddFont` derives from the Roboto file names.
- GuiManager.Fonts.GetFont: requires a non-empty atlas, because the source falls back to `Fonts[0]`.
- GuiManager.Fonts.AddFont: font sizes are whole numbers written in decimal. `std::to_string(float)` prints six decimals; those digits are not modelled. The icon font merged after each font is not modelled, and the atlas is a list of names.
- The global GUI manager pointer (src/gui/manager.h:43) and its null start are not modelled.
- ScriptRemote.Registry.RemoteInstance: the managed object the source creates is a parameter. The requirement that it is not registered yet stands for the runtime handing out a fresh object.
- NarryTree.Forest.AddChild: requires a child without a parent that is not an ancestor of the new parent. The source moves a `unique_ptr`, so those cases are undefined there.
- Prefab.Load: requires well-formed metadata (every referenced key present, every parent recorded). The source reads the JSON through a const reference and dereferences the parent entity without checks. Attaching the prefab's root to the scene (src/assets/prefab.cpp:115) is not modelled. The model visits the objects in an unspecified order, so a failed load reports some failing object's error; nlohmann::json iterates an object sorted by key, which would make it the failing object with the least key.
- Prefab.ParseLight: requires a readable light entry. Spot lights, which the importer records, are rejected here as in the source.
- Importer.DefaultsAreFallbacks: the three default texture ids the importer writes (uuids ending in 1, 2 and 3) are shown to name the asset manager's fallbacks only when those fallbacks get the ids 1, 2 and 3. src/assets/manager.cpp:73-89 draws those ids from the id provider, which is not part of this model.
- Importer.Importer.Import: the prefab list `AddPrefab` appends to is kept beside the asset manager, in `Importer.Prefabs`, because the manager revision declaring it is not part of this model.
- Importer.Importer.Import: the orthographic camera's top (its width over its aspect ratio) is an input of the camera, `halfHeight`, rather than computed.
- MathMgv.DivScalar: requires a non-zero divisor, because integer division by zero is undefined in C++.
- Image.Image.GenerateMipmaps: requires width and height of at most 2^31-1, standing for the `static_cast<int32_t>` of the blit offsets (src/memory/image.cpp:320-321); the device's image-size limit keeps real extents far below that bound.
- RenderPass.RenderPass.Subpass: requires every colour reference of the chosen subpass to name an attachment, because the source indexes `m_attachments` with it without a check (src/graphics/renderPass.h:102-103).
- ScriptAssembly.Loaded: `std::filesystem::path::filename()` is modelled as what follows the last '/'. On Windows the source also splits at '\\', which the model does not.
- ComputePipeline.Builder.Build: the push-constant ranges of the compute pipeline layout (`m_pushConstantRanges`, src/compute/pipeline.cpp:45) are not modelled; nothing in src/compute/pipeline.cpp adds to them.
- SwapChain.SwapChain.constructor: the present queue is a parameter standing for `m_device.RequestPresentQueue().value()` (src/graphics/swapChain.cpp:61); that request is modelled by Device.Device.RequestPresentQueue and is not composed here, so its failure (the `value()` on an empty result) is not part of the swap chain model.
- BufferTemplate.Buffer.ReadAt: requires, for an index in range, a mapped buffer whose memory holds the `sizeof(T)` bytes read, because the source dereferences the mapping unconditionally.
- BufferTemplate.Buffer.HostByte: the host address `m_mapped + index` is computed without a bound; pointer overflow and writes past the allocation, which the source does not check, are not modelled. The memory is a map, so such a write adds bytes beyond the buffer's size.
- BufferTemplate.Buffer.Flush: flushed and invalidated ranges are offsets in the whole memory object, as Vulkan takes them, while `Write` addresses bytes from the mapped base; the model keeps both as the source computes them and does not relate them when the mapping does not start at 0.
- BufferTemplate.Buffer.Write: requires the data to hold the `count * alignmentSize` bytes `memcpy` reads; for `WriteAt` those are the object's `sizeof(T)` bytes and the `following` bytes after it in the caller's memory, whose values the source does not control.
- RenderPass.RenderPass.Resize: requires every attachment to hold an image for each new frame, because the source indexes them without a check.
- RenderPass.RenderPass.Begin: requires an image index below the framebuffer count, because the source indexes without a check.
- SwapChain.ChooseSurfaceFormat: requires at least one available format, because the source falls back to the first one.
- SwapChain.SwapChain.CreateRenderPass: requires the driver to return at least one image and at least as many images as the pass uses.
- ComputePipeline.Builder.Build: requires a shader to have been set, because the source dereferences it.
- Texture.Texture.constructor: takes the mip level count as a parameter. src/graphics/objects/texture.cpp:16 uses floor(log2) while src/graphics/objects/textureArray.cpp:64 uses the ceiling form that TextureArray.MipLevels models.
- Device.FindMemoryType: the memory type table has the fixed Vulkan size of 32 entries.

## Findings

| source | as written | input that shows it | evidently intended | confidence | as-written member | corrected member |
|---|---|---|---|---|---|---|
| src/memory/image.cpp:131-137 | the `eColorAttachmentOptimal` case has no `break` and falls through into the transfer case, which overwrites its access mask and stage | a transition from undefined to colour attachment gets transfer-write access at the transfer stage | colour attachment read and write access at the colour attachment output stage | high, not executed | Image.TransitionBarrierAsWritten, Image.FallthroughDropsColorScope | Image.TransitionBarrier |
| src/core/input.cpp:30-36 | `Update` walks `magic_enum::enum_values<Key>()`, whose default reflection range ends at 127, so keys above it are skipped (src/core/input.h:70 gives `Esc` the value 256) | `Esc` pressed, then `Update`: it stays Pressed instead of becoming Held | every key advances from Pressed to Held and from Released to NotPressed | medium, not executed | CoreInput.ReflectedUpdateKeepsEscapePressed | CoreInput.FullUpdateAdvancesEveryKey, ReCoreInput.UpdateCoversEveryKey |
| src/core/device.cpp:43-49 | a queue's index is `queueCount - remaining`, and the destructor only increments `remaining` | a family of 2 queues: take queues 0 and 1, release queue 0, take again, and the new queue gets index 1, which is still in use | a released index is handed out again, and an index in use never twice | high, not executed | Queue.OutOfOrderReleaseSharesIndex | Queue.LowestFree, Queue.Family.RequestQueue |
| src/graphics/pipeline.cpp:138-153 | the push-constant range found by `FindIf` is a copy, so or-ing the new stage into it is lost | two shaders of different stages declaring the same push-constant range: the merged range keeps only the first stage | the merged range covers every stage that declares it | high, not executed | LayoutMerge.PushAllAsWrittenEntry, LayoutMerge.CopyDropsLaterStages | LayoutMerge.PushAllMergedEntry, LayoutMerge.MergedRangeServesEveryStage |
| src/utils/types.cpp:14 | the table key is `"ivec2 "` with a trailing space | `FormatFromString("ivec2")` gives no format | `"ivec2"` maps to the two-component signed integer format | high, not executed | Types.FormatFromString, Types.IvecTwoRejected | Types.FormatFromName, Types.FormatFromNameAgrees |
| src/graphics/objects/texture.h:109-112 | the usage or-assignment operator (lines 36-38) takes its left operand by value, so `Usage` or-assigns into a copy | `Usage(u)` with any non-zero `u` leaves the builder's usage unchanged | the builder's usage gains the given bits | high, not executed | Texture.Builder.Usage | Texture.Builder.AddUsage |
| src/scripting/remote.h:63-69 | `AddRemoteInstance` checks only the managed side, then overwrites the native object's wrapper | a native object already linked to managed object 1 is added again with managed object 2: the entry for 1 is left stale, and destroying the native object leaves it behind | the add fails when either side is already registered, keeping the two maps inverse to each other | high, not executed | ScriptRemote.AddAsWritten, ScriptRemote.AddAsWrittenLeavesStaleEntry | ScriptRemote.AddChecked, ScriptRemote.AddCheckedKeepsPaired |
| src/shader/manager.h:32-42 | nothing assigns `s_instance`; the constructor (src/shader/manager.cpp:9-29) never registers the manager | construct a manager, then call `Manager::Get()`: it throws "Shader Manager is not initialized" | the constructor registers the manager, as the scene manager's does | high, not executed | ShaderManager.AsWrittenGetThrows, ShaderManager.Manager.AsWritten | ShaderManager.Manager.constructor, ShaderManager.RegisteredGetFinds |
| src/memory/buffer.h:242-243 | `Write` offsets the `T*` mapping by `offset` objects of `sizeof(T)` bytes but copies `instanceCount * m_alignmentSize` bytes, while every device range of the class strides `m_alignmentSize` | a 4-byte `T` at alignment 256, mapped from 0: `WriteAt(1, v)` writes bytes 4 to 259, overwriting the object `ReadAt(2)` reads at byte 8, and `FlushAt(1)` flushes bytes 256 to 511 | each object lives at the start of its `alignmentSize` slot and `WriteAt` copies only its `sizeof(T)` bytes there | high, not executed | BufferTemplate.WriteAtOverrunsNext, BufferTemplate.WriteAtOverrunExample | BufferTemplate.Buffer.WriteAtAligned, BufferTemplate.AlignedWriteKeepsOthers |
