# Azteck engine core, modelled in Dafny

Azteck is a C++ 2D game engine with an editor and a few C# gameplay scripts.
Underneath the OpenGL, GLFW, ImGui, yaml-cpp and Mono calls it has a good
deal of sequential logic. This project models that logic as immutable
datatypes and pure functions, and proves what the engine promises about it:

- **Vertex layout and batching.**
  - `BufferLayout`: shader data type sizes, element offsets as prefix sums, the stride.
  - `VertexArray`: GL base types and attribute placement.
  - `Renderer2D`: the quad batch. Covers the index pattern, texture-slot reuse, the four vertices per quad, scene begin and end, and the statistics.
  - `RendererApi`: draw-count defaulting and debug-message severities.
- **Shader text.**
  - `ShaderSource`: stage names, splitting a source on `#type` lines, the name taken from a file path, and cache extensions.
  - `ShaderLibrary`: the name-keyed library.
  - `Strings`: the `std::string` searches these rely on.
- **Resources.**
  - `Texture`: format selection, the loaded flag, the `setData` size check, and equality.
  - `Framebuffer`: the resize bounds.
  - `RawBuffer`: allocate, release and copy.
- **Events and layers.**
  - `Events`: categories as bits, dispatch and the handled flag, and the `toString` texts.
  - `LayerStack`: the layer and overlay regions split by the insert index.
  - `Application`: top-down propagation, close and resize handling, and the minimised run loop.
- **Profiler.** `Instrumentor` is the trace-session state machine. It writes a JSON header, one record per timed scope, and a footer.
- **Entities, scenes and files.**
  - `Components` and `Scene`: component presence rules, entity creation and destruction, camera resizing, primary-camera choice, and the native-script lifecycle.
  - `Yaml`: the abstract key/value tree and its value conversions.
  - `SceneSerializer`: scene files, with a full save-then-load round trip.
  - `ProjectSerializer`: project files.
- **Cameras**, over `real`:
  - `SceneCamera`: orthographic parameters and bounds;
  - `OrthoController`: zoom floor, rotation wrap and key precedence;
  - `EditorCamera`: zoom and pan speeds, distance floor, mouse handling;
  - `Timestep`: unit conversion.
- **Editor and scripts.**
  - `EditorLayer`: Edit/Play switching with the gizmo saved and restored, keyboard shortcuts, opening and saving scenes, viewport fitting and picking.
  - `ContentBrowser` and `Paths`: directory navigation.
  - `Scripts`: the C# Player and Camera scripts.

Everything the engine gets from outside comes in as a parameter:
- key and mouse state;
- file contents and dialog answers;
- the pixel under the mouse;
- clock readings and thread ids;
- the decoder's answer.

Floats are `real`. Fixed-width integers are written out where their width
matters, for example the 32-bit statistics products and the `size_t`
wrap-around in the shader name.

The code and its declarations disagree in a few places, and the model
follows the code:
- `Application.cpp` dispatches a `WindowResizedEvent`, while `ApplicationEvent.h` declares `WindowResizeEvent`. Both are treated as the one resize event.
- `Components.h` is older than `SceneSerializer.cpp`, which uses an ID component, translation/rotation/scale transforms, circle renderers, 2D rigid bodies and box colliders. The model has the serializer's component set.
- `createEntityWithUUID` is called by the serializer but is not defined in `Scene.cpp`. It is modelled as `createEntity` that also sets the ID component.
- `SceneSerializer::serialize` calls the static `serializeEntity` before it is declared. The model takes the evident intent.
- `SceneSerializer.cpp` calls camera setters and getters that `SceneCamera.h` does not declare: the projection type, the vertical field of view, the perspective near and far clips, and the orthographic near and far clips. The model assumes each setter stores its argument in a field of its own and changes nothing else, and each getter reads that field back. So `SceneCamera.Camera` has a `projectionType` and a `perspective` field, and `SceneCamera.SetOrthographicClips` sets `_orthoNear` and `_orthoFar`. The projection type is kept as the integer the file holds.
- `EditorLayer.cpp` calls `Scene::duplicateEntity`, which no header declares. The duplication is an input of the editor layer (`Io.duplicate`), and the model states only when the layer calls it.

## Model

| member | source | states |
|---|---|---|
| `BufferLayout.SizeIsFourPerComponent` | Azteck/src/Azteck/Renderer/Buffer.h:14-78 | the byte size is four per component exactly for the Int, Float and Mat types; Bool is one byte and one component; only None has size 0 and no components |
| `BufferLayout.DefaultElement` | Azteck/src/Azteck/Renderer/Buffer.h:40-46 | the default element has an empty name, type None, size 0, offset 0, is not normalised and has no components |
| `BufferLayout.MakeElement` | Azteck/src/Azteck/Renderer/Buffer.h:48-54 | an element keeps its type, name and flag (false by default), takes its size from the type table (positive for every real type) and starts at offset 0 |
| `BufferLayout.EmptyLayout` | Azteck/src/Azteck/Renderer/Buffer.cpp:87-91 | the default layout has no elements and stride 0 |
| `BufferLayout.CalculateOffsetsAndStride` | Azteck/src/Azteck/Renderer/Buffer.cpp:93-104 | the loop places every element at the sum of the sizes before it, keeps the rest of each element, and returns the sum of all sizes as the stride |
| `BufferLayout.NewLayout` | Azteck/src/Azteck/Renderer/Buffer.cpp:81-85 | the list constructor keeps the elements in order, each placed after its predecessors, with the total size as stride |
| `BufferLayout.LayoutOffsetsWithinStride` | Azteck/src/Azteck/Renderer/Buffer.cpp:93-104 | the first offset is 0, offsets never decrease, and every element ends within the stride |
| `BufferLayout.LayoutKeepsElementData` | Azteck/src/Azteck/Renderer/Buffer.cpp:98-103 | only offsets are written: names, types, sizes and flags stay in their order |
| `BufferLayout.StrideIsSumOfSizes` | Azteck/src/Azteck/Renderer/Buffer.cpp:93-104 | the stride equals an independent sum of the element sizes, so there is no padding |
| `BufferLayout.QuadLayoutOffsets` | Azteck/src/Azteck/Renderer/Renderer2D.cpp:52-58 | the batch vertex layout {Float3, Float4, Float2, Float, Float} has offsets 0, 12, 28, 36, 40 and stride 44 |
| `VertexArray.OpenGLBaseType` | Azteck/src/Platform/OpenGL/OpenGLVertexArray.cpp:8-29 | Int..Int4 map to GL_INT, Float..Float4 and the matrices to GL_FLOAT, and Bool to GL_BOOL; None alone falls to the assertion and gives 0 |
| `VertexArray.BaseTypeMatchesSize` | Azteck/src/Platform/OpenGL/OpenGLVertexArray.cpp:8-29 | the base-type table agrees with the size table: the 4-byte scalar types are exactly the int and float ones, and GL_BOOL exactly the 1-byte type |
| `VertexArray.NewVertexArray` | Azteck/src/Platform/OpenGL/OpenGLVertexArray.cpp:31-34 | a new vertex array holds no vertex buffers and no index buffer |
| `VertexArray.AddVertexBuffer` | Azteck/src/Platform/OpenGL/OpenGLVertexArray.cpp:51-75 | a non-empty layout is required; attribute k gets index k (counting from 0 on every call) and element k's component count, base type, flag and offset with the layout stride; the buffer is appended and the index buffer kept |
| `VertexArray.SetIndexBuffer` | Azteck/src/Platform/OpenGL/OpenGLVertexArray.cpp:77-83 | the stored index buffer is replaced and the vertex buffers kept |
| `VertexArray.AddThenSetIndexBuffer` | Azteck/src/Platform/OpenGL/OpenGLVertexArray.cpp:74-93 | after adding and setting, the buffer list has grown by one at the end with earlier entries unchanged, and `getIndexBuffer` gives the buffer just set |
| `Renderer2D.QuadVertexSizeIsLayoutStride` | Azteck/src/Azteck/Renderer/Renderer2D.cpp:12-58 | the 44-byte batch vertex is the stride of the layout declared for it, and the vertex and index capacities are 4 and 6 per quad |
| `Renderer2D.GenerateIndices` | Azteck/src/Azteck/Renderer/Renderer2D.cpp:65-79 | the start-up loop yields six indices per quad, index i being 4·(i div 6) plus the corner pattern 0,1,2,2,3,0 |
| `Renderer2D.QuadIndicesAt` | Azteck/src/Azteck/Renderer/Renderer2D.cpp:67-79 | the buffer built block by block (4q + [0,1,2,2,3,0] for quad q) equals the closed-form pattern at every position |
| `Renderer2D.IndicesOfQuad` | Azteck/src/Azteck/Renderer/Renderer2D.cpp:67-79 | quad q's six indices are 4q + [0,1,2,2,3,0], and every index is below 4 × quads, so it names a vertex of the buffer |
| `Renderer2D.BeginScene` | Azteck/src/Azteck/Renderer/Renderer2D.cpp:108-118 | a scene starts with no indices, the write cursor at the base and only the white texture, in slot 0 |
| `Renderer2D.SlotOf` | Azteck/src/Azteck/Renderer/Renderer2D.cpp:184-191 | the lookup finds the first slot holding an equal texture, no earlier slot holds one, and it finds none exactly when no slot does |
| `Renderer2D.SlotFor` | Azteck/src/Azteck/Renderer/Renderer2D.cpp:182-199 | a texture gets its existing slot, or else the next free one |
| `Renderer2D.CornersDepth` | Azteck/src/Azteck/Renderer/Renderer2D.cpp:201-227 | both corner generators lay out the rectangle BL, BR, TR, TL with texture coordinates (0,0), (1,0), (1,1), (0,1); the corrected one is flat at the requested depth, the as-written one only when that depth is 0 |
| `Renderer2D.DrawQuadAsWritten` | Azteck/src/Azteck/Renderer/Renderer2D.cpp:178-229 | defined exactly when a new texture still has a slot and the vertex buffer has room; it appends four corners, adds 6 indices, and appends the texture to the slots exactly when it had none |
| `Renderer2D.DistinctTexturesFillSlots` | Azteck/src/Azteck/Renderer/Renderer2D.cpp:184-199 | drawing up to 31 distinct textures fills the slots after the white texture in drawing order, four vertices per quad |
| `Renderer2D.ThirtyTwoDistinctTexturesOverflow` | Azteck/src/Azteck/Renderer/Renderer2D.cpp:193-199 | a scene drawing 32 distinct textures besides the white one writes past the 32-slot array |
| `Renderer2D.StartRenderer` | Azteck/src/Azteck/Renderer/Renderer2D.cpp:21-98 | after `init` the white texture sits in slot 0, the index count is 0 and nothing has been drawn, but the write cursor is still null, so the renderer does not yet accept a quad |
| `Renderer2D.BeginRendererScene` | Azteck/src/Azteck/Renderer/Renderer2D.cpp:108-118 | `beginScene` makes the renderer accept quads: an empty batch with only the white texture, cursor at the base, earlier draws kept |
| `Renderer2D.Flush` | Azteck/src/Azteck/Renderer/Renderer2D.cpp:130-136 | a flush issues one indexed draw of the batch's index count, zero meaning the whole index buffer, and keeps the batch |
| `Renderer2D.DrawQuad` | Azteck/src/Azteck/Renderer/Renderer2D.cpp:178-229 | with room, the quad is added to the batch without a draw; without room (no free slot or vertex space) the batch is flushed and a new scene begun first; either way the batch stays valid and gains four flat corners and 6 indices |
| `Renderer2D.AddQuad` | Azteck/src/Azteck/Renderer/Renderer2D.cpp:201-229 | a quad added to a batch with room keeps the earlier vertices, adds four flat corners at the texture's slot and 6 indices, and keeps the batch valid |
| `Renderer2D.DrawQuadAgreesWhenRoom` | Azteck/src/Azteck/Renderer/Renderer2D.cpp:178-229 | wherever the as-written draw is defined, the corrected one issues no draw and agrees with it on index count and slots, and on every vertex when the depth is 0 |
| `Renderer2D.DrawColorQuad` | Azteck/src/Azteck/Renderer/Renderer2D.cpp:143-146 | a colour-only quad uses the white texture's slot 0 with tiling 1; with vertex room it draws nothing and leaves the slots alone |
| `Renderer2D.ColorQuadRoom` | Azteck/src/Azteck/Renderer/Renderer2D.cpp:115-117 | in a valid batch the white texture is always found in slot 0, and the vertex buffer either has room or is exactly full |
| `Renderer2D.DrawColorQuad2D` | Azteck/src/Azteck/Renderer/Renderer2D.cpp:138-141 | the 2D-position overload places the quad at depth 0 |
| `Renderer2D.EndScene` | Azteck/src/Azteck/Renderer/Renderer2D.cpp:120-136 | every written vertex is uploaded and every occupied slot bound; the draw covers the written indices, or the whole index buffer when there are none; for whole quads with six indices each, 176 bytes and 6 indices per quad |
| `Renderer2D.EndSceneCounts` | Azteck/src/Azteck/Renderer/Renderer2D.cpp:120-128 | for n quads the scene uploads 176·n bytes and draws 6·n indices, while an empty scene draws the whole index buffer |
| `Renderer2D.NewStatistics` | Azteck/src/Azteck/Renderer/Renderer2D.h:32-35 | the counters start at zero |
| `Renderer2D.StatisticsRatio` | Azteck/src/Azteck/Renderer/Renderer2D.h:37-38 | while the 32-bit products do not wrap, the totals are 4 and 6 per quad, so two index totals equal three vertex totals |
| `Renderer2D.StatisticsWrap` | Azteck/src/Azteck/Renderer/Renderer2D.h:37-38 | at 2^30 quads the 32-bit index total wraps to 2^31 and the vertex total to 0 |
| `RendererApi.DrawCount` | Azteck/src/Platform/OpenGL/OpenGLRendererAPI.cpp:61-65 | a non-zero requested count is drawn as is; zero falls back to the index buffer's count |
| `RendererApi.DrawCountNeverBelowRequest` | Azteck/src/Platform/OpenGL/OpenGLRendererAPI.cpp:63 | a draw never covers fewer indices than requested, and it is empty only when both counts are zero |
| `RendererApi.RouteMessage` | Azteck/src/Platform/OpenGL/OpenGLRendererAPI.cpp:17-25 | HIGH goes to critical, MEDIUM to error, LOW to warn and NOTIFICATION to trace, each and only each |
| `RendererApi.UnknownSeverityAsserts` | Azteck/src/Platform/OpenGL/OpenGLRendererAPI.cpp:17-25 | exactly the values other than the four severities reach the assertion |
| `Framebuffer.DefaultSpec` | Azteck/src/Azteck/Renderer/FrameBuffer.h:42-51 | a default specification is 0 × 0, with no attachments, one sample and no swap-chain target |
| `Framebuffer.Resize` | Azteck/src/Platform/OpenGL/OpenGLFrameBuffer.cpp:36-48 | a zero or over-8192 side leaves the spec unchanged; otherwise the width and height are taken and nothing else changes |
| `Framebuffer.ResizeBounds` | Azteck/src/Platform/OpenGL/OpenGLFrameBuffer.cpp:9-48 | 8192 is accepted and 8193 refused; a resize is idempotent; a valid size stays valid; and a resize takes effect exactly when the requested size is valid |
| `Texture.FormatsFor` | Azteck/src/Platform/OpenGL/OpenGLTexture.cpp:30-43 | 4 channels give (RGBA8, RGBA), 3 give (RGB8, RGB), and any other count leaves both formats 0 |
| `Texture.FormatCheckAcceptsThreeOrFourChannels` | Azteck/src/Platform/OpenGL/OpenGLTexture.cpp:30-45 | the bitwise "format supported" check passes exactly for 3- and 4-channel images |
| `Texture.FromFileAsWritten` | Azteck/src/Platform/OpenGL/OpenGLTexture.cpp:8-60 | a decoded image gives its size, the driver's id, the channel formats and the loaded flag; a failed decode leaves the formats 0, the flag unwritten, and width, height and id holding whatever their uninitialised members held |
| `Texture.FailedTexturesCompareByUnsetId` | Azteck/src/Platform/OpenGL/OpenGLTexture.h:36-38 | two textures whose decode failed compare equal exactly when their never-written ids happen to hold the same value |
| `Texture.FromFile` | Azteck/src/Platform/OpenGL/OpenGLTexture.cpp:8-60 | with the flag initialised to false, the texture is loaded exactly when decoding succeeded, and otherwise agrees with the constructor as written |
| `Texture.FromSizeAsWritten` | Azteck/src/Platform/OpenGL/OpenGLTexture.cpp:62-78 | the sized constructor always uses RGBA8/RGBA and never writes the loaded flag |
| `Texture.FromSize` | Azteck/src/Platform/OpenGL/OpenGLTexture.cpp:62-78 | the sized constructor with the flag initialised: RGBA8/RGBA, a supported format, not loaded |
| `Texture.IsLoaded` | Azteck/src/Platform/OpenGL/OpenGLTexture.h:26 | `isLoaded()` reads true exactly for a loaded texture and has no defined answer while the flag is unwritten |
| `Texture.FailedLoadFlagIsIndeterminate` | Azteck/src/Platform/OpenGL/OpenGLTexture.cpp:23-25 | as written, a failed decode and the sized constructor both leave `isLoaded()` reading an unwritten flag |
| `Texture.LoadedFlagIsDefined` | Azteck/src/Platform/OpenGL/OpenGLTexture.cpp:23-25 | with the flag initialised, `isLoaded()` always answers, and answers true exactly when decoding succeeded |
| `Texture.BytesPerPixel` | Azteck/src/Platform/OpenGL/OpenGLTexture.cpp:91 | RGBA data is 4 bytes per pixel and every other format 3 |
| `Texture.SetDataSizeCheck` | Azteck/src/Platform/OpenGL/OpenGLTexture.cpp:87-94 | when the 32-bit product does not wrap, `setData` accepts exactly width × height × bytes per pixel, so the 1 × 1 white texture takes 4 bytes and refuses 3 |
| `Texture.EqualsIsAnEquivalence` | Azteck/src/Platform/OpenGL/OpenGLTexture.cpp:103-109 | textures are equal exactly when the other is an OpenGL texture with the same renderer id; this is reflexive, symmetric and transitive, and never holds against another back end |
| `RawBuffer.NullBuffer` | Azteck/src/Azteck/Core/Buffers.h:57-59 | the default buffer is null with size 0 and converts to false |
| `RawBuffer.Release` | Azteck/src/Azteck/Core/Buffers.h:36-41 | release frees exactly the buffer's block (nothing when null) and leaves it null with size 0; freeing a block that is not live is a double free |
| `RawBuffer.Allocate` | Azteck/src/Azteck/Core/Buffers.h:28-34 | allocate succeeds exactly when the old block can be released; the buffer then refers to a fresh live block of the requested size, the old block is gone and every other block is unchanged |
| `RawBuffer.NewBuffer` | Azteck/src/Azteck/Core/Buffers.h:14-17 | the sized constructor gives a truthy buffer over a fresh live block of that size and leaves every existing block alone |
| `RawBuffer.Copy` | Azteck/src/Azteck/Core/Buffers.h:21-26 | a copy is a fresh block of the same size holding the same bytes, distinct from the original's |
| `RawBuffer.CopyIsDeepShallowIsNot` | Azteck/src/Azteck/Core/Buffers.h:19-41 | releasing the original leaves a `Copy` intact, while a copy made by the copy constructor shares the block and is left dangling, and releasing it again is a double free |
| `RawBuffer.ReleaseTwiceAndAllocateZero` | Azteck/src/Azteck/Core/Buffers.h:28-55 | releasing twice through the same buffer is harmless, and `allocate(0)` still gives a truthy buffer of size 0 |
| `RawBuffer.DestroyScoped` | Azteck/src/Azteck/Core/Buffers.h:75-78 | destroying a scoped buffer releases its buffer, and succeeds exactly when that release does |
| `RawBuffer.ScopedBufferFreesItsBlock` | Azteck/src/Azteck/Core/Buffers.h:70-78 | a scoped buffer of a fresh allocation frees exactly that block, leaving the heap as it was |
| `ShaderSource.ShaderTypeFromString` | Azteck/src/Platform/OpenGL/OpenGLShader.cpp:18-27 | "vertex", and only it, is the vertex stage; "fragment" and "pixel", and only they, are the fragment stage; every other name falls to the assertion and gives 0 |
| `ShaderSource.StageNameRoundTrip` | Azteck/src/Platform/OpenGL/OpenGLShader.cpp:18-27 | every stage comes back from its canonical name, and the only accepted name that is not canonical is "pixel" |
| `ShaderSource.PreProcessFrom` | Azteck/src/Platform/OpenGL/OpenGLShader.cpp:279-292 | the loop keeps every stage it has already read; an unknown stage name stops it at the debug assertion, so stage 0 is never recorded (a release build would store that code under key 0) |
| `ShaderSource.Declaration` | Azteck/src/Platform/OpenGL/OpenGLShader.cpp:281-288 | a declaration line is read only when it names a known stage, and the code after it starts past the token and within the text; a missing line end or code is the syntax-error assertion |
| `ShaderSource.PreProcess` | Azteck/src/Platform/OpenGL/OpenGLShader.cpp:270-295 | a source with no `#type` gives an empty map, and, reading the invalid-stage assertion as the debug build's stop, no stage 0 is ever recorded |
| `ShaderSource.DeclarationRead` | Azteck/src/Platform/OpenGL/OpenGLShader.cpp:281-287 | at `#type name` followed by a line end, the stage is the name's stage and the code starts on the next line |
| `ShaderSource.PreProcessFromRender` | Azteck/src/Platform/OpenGL/OpenGLShader.cpp:279-292 | from a declaration onwards, the loop reads a written file back into the map its sections describe |
| `ShaderSource.PreProcessRender` | Azteck/src/Platform/OpenGL/OpenGLShader.cpp:270-295 | splitting a file written from well-formed sections gives back each stage's code; text before the first declaration is dropped |
| `ShaderSource.VertexFragmentFile` | Azteck/src/Platform/OpenGL/OpenGLShader.cpp:270-295 | the usual vertex-then-fragment file splits into exactly those two stages with their code |
| `ShaderSource.RepeatedStageKeepsLast` | Azteck/src/Platform/OpenGL/OpenGLShader.cpp:291 | when a stage appears twice (as "fragment" then "pixel"), only the later section's code is kept |
| `ShaderSource.FileName` | Azteck/src/Platform/OpenGL/OpenGLShader.cpp:127-128 | the file name is the tail of the path after the last separator, and holds no separator |
| `ShaderSource.NameIsFileNameStem` | Azteck/src/Platform/OpenGL/OpenGLShader.cpp:127-132 | despite the wrap-around of the 64-bit count, the name is the file name cut at its own last dot, or the whole file name when it has none |
| `ShaderSource.NameExamples` | Azteck/src/Platform/OpenGL/OpenGLShader.cpp:127-132 | "assets/shaders/Texture.glsl" is named "Texture", and "assets\Flat" and "assets.v2/Flat" are both named "Flat" |
| `ShaderSource.CachedOpenGLExtension` | Azteck/src/Platform/OpenGL/OpenGLShader.cpp:66-76 | the vertex stage caches to ".cached_opengl.vert", the fragment stage to ".cached_opengl.frag", and any other stage asserts and gives "" |
| `ShaderSource.CachedVulkanExtension` | Azteck/src/Platform/OpenGL/OpenGLShader.cpp:78-88 | the vertex stage caches to ".cached_vulkan.vert", the fragment stage to ".cached_vulkan.frag", and any other stage asserts and gives "" |
| `ShaderSource.CacheExtensionsDistinct` | Azteck/src/Platform/OpenGL/OpenGLShader.cpp:66-88 | only the two stages have cache extensions, and the four cache files of the two stages never collide |
| `ShaderLibrary.CreateFromFile` | Azteck/src/Azteck/Renderer/Shader.cpp:32-53 | a shader created from a file is named from its path and keeps the program the driver built |
| `ShaderLibrary.EmptyLibrary` | Azteck/src/Azteck/Renderer/Shader.cpp:95-98 | no name exists in a new library |
| `ShaderLibrary.Add` | Azteck/src/Azteck/Renderer/Shader.cpp:61-65 | a name not yet taken then exists and gives back the shader, and every other name is unaffected |
| `ShaderLibrary.AddNamed` | Azteck/src/Azteck/Renderer/Shader.cpp:55-59 | `add(shader)` registers under the shader's own name and changes no other entry |
| `ShaderLibrary.Get` | Azteck/src/Azteck/Renderer/Shader.cpp:83-93 | `get` finds a shader exactly when the name exists, and gives null otherwise |
| `ShaderLibrary.Load` | Azteck/src/Azteck/Renderer/Shader.cpp:67-73 | `load(path)` returns the created shader and registers it under the name derived from the path, changing no other entry |
| `ShaderLibrary.LoadAs` | Azteck/src/Azteck/Renderer/Shader.cpp:75-81 | `load(name, path)` returns the created shader and registers it under the given name, changing no other entry |
| `ShaderLibrary.AddCommutes` | Azteck/src/Azteck/Renderer/Shader.cpp:61-65 | two shaders added under different names give the same library in either order |
| `ShaderLibrary.LoadTextureShader` | Azteck/src/Azteck/Renderer/Shader.cpp:67-73 | loading "assets/shaders/Texture.glsl" registers the shader as "Texture" |
| `Events.NewEvent` | Azteck/src/Azteck/Events/Event.h:48-49 | a new event carries its payload and is not handled |
| `Events.CategoriesAreDistinctBits` | Azteck/src/Azteck/Events/Event.h:18-26 | the five categories are the bits 0 to 4, pairwise disjoint |
| `Events.CategoryMembership` | Azteck/src/Azteck/Events/Event.h:32-44 | an event is in the keyboard category exactly when it is a key event, in the mouse-button category exactly when it is a button event, in the mouse category exactly for the four mouse events, and in the input category exactly when it is not an application event |
| `Events.SetHandled` | Azteck/src/Azteck/Events/Event.h:46 | `setHandled` writes the flag and keeps the payload |
| `Events.Dispatch` | Azteck/src/Azteck/Events/Event.h:59-69 | dispatch reports a match exactly when the event has the handler's type; then the handled flag becomes the handler's answer, and otherwise the event is left alone |
| `Events.DispatchOverwritesHandled` | Azteck/src/Azteck/Events/Event.h:64 | a matching dispatch overwrites an already-set handled flag with the handler's answer, and dispatching again changes nothing more |
| `Events.KeyPressedTextDetermines` | Azteck/src/Azteck/Events/KeyEvent.h:33-38 | the text of a key-pressed event determines its key code and its repeat count |
| `Events.ResizeTextDetermines` | Azteck/src/Azteck/Events/ApplicationEvent.h:20-25 | the text of a resize event determines its width and height |
| `Events.CodeTextDetermines` | Azteck/src/Azteck/Events/KeyEvent.h:53-76 | after a fixed prefix, the decimal code determines the key or button code |
| `Events.ToStringInjective` | Azteck/src/Azteck/Events/MouseEvent.h:84-107 | for the events whose text holds only integers, two events of one type with the same text are the same event |
| `Events.ToStringExamples` | Azteck/src/Azteck/Events/KeyEvent.h:33-38 | key 65 with 2 repeats reads "KeyPressedEvent: 65 (2 repeats)", a 1280 × 720 resize reads "WindowResizeEvent: 1280, 720", and a close event is its type name |
| `LayerStack.NewStack` | Azteck/src/Azteck/Core/LayerStack.cpp:6-10 | a new stack has no layers, no overlays and insert index 0 |
| `LayerStack.IndexOf` | Azteck/src/Azteck/Core/LayerStack.cpp:31 | `std::find` gives the first position holding the layer, and none exactly when the layer is absent |
| `LayerStack.EraseIsRemoveFirst` | Azteck/src/Azteck/Core/LayerStack.cpp:31-34 | erasing at the found position is the same as removing the first occurrence, defined independently by recursion |
| `LayerStack.PushLayer` | Azteck/src/Azteck/Core/LayerStack.cpp:18-22 | a pushed layer goes on top of the layers, below every overlay, and the overlays are unchanged |
| `LayerStack.PushOverlay` | Azteck/src/Azteck/Core/LayerStack.cpp:24-27 | a pushed overlay goes at the very end, the insert index stays, and the layers are unchanged |
| `LayerStack.PopLayer` | Azteck/src/Azteck/Core/LayerStack.cpp:29-37 | popping an absent layer changes nothing; otherwise its first occurrence is removed and the insert index steps back by one |
| `LayerStack.PopOverlay` | Azteck/src/Azteck/Core/LayerStack.cpp:39-44 | popping an absent overlay changes nothing; otherwise its first occurrence is removed, and the insert index never moves |
| `LayerStack.PopLayerKeepsRegions` | Azteck/src/Azteck/Core/LayerStack.cpp:29-37 | popping a layer of the layer region removes it from there and leaves the overlays alone |
| `LayerStack.PopOverlayKeepsRegions` | Azteck/src/Azteck/Core/LayerStack.cpp:39-44 | popping an overlay that is not among the layers removes it from the overlays and leaves the layers alone |
| `LayerStack.PopLayerOnOverlayMisplaces` | Azteck/src/Azteck/Core/LayerStack.cpp:29-37 | `popLayer` given an overlay still moves the insert index back, so the topmost layer is then counted among the overlays |
| `LayerStack.StepRefines` | Azteck/src/Azteck/Core/LayerStack.cpp:18-44 | each push or well-aimed pop keeps the vector equal to "layers, then overlays" of an abstract pair of lists, with the insert index at the boundary |
| `LayerStack.RunRefines` | Azteck/src/Azteck/Core/LayerStack.cpp:18-44 | any run of pushes and well-aimed pops from an empty stack keeps every layer before every overlay, each list in push order |
| `Application.PushLayer` | Azteck/src/Azteck/Core/Application.cpp:71-78 | a null layer is ignored; otherwise the layer is pushed onto the stack and then attached |
| `Application.PushOverlay` | Azteck/src/Azteck/Core/Application.cpp:80-87 | a null overlay is ignored; otherwise it is pushed as an overlay and then attached |
| `Application.NewApplication` | Azteck/src/Azteck/Core/Application.cpp:18-40 | a new application is running, not minimised, with the last frame at time 0 and the ImGui layer as its only, attached overlay |
| `Application.Close` | Azteck/src/Azteck/Core/Application.cpp:48-51 | `close` stops the run loop and changes nothing else |
| `Application.OnWindowClose` | Azteck/src/Azteck/Core/Application.cpp:89-93 | the close handler closes the application and reports the event handled |
| `Application.OnWindowResized` | Azteck/src/Azteck/Core/Application.cpp:95-109 | the application is minimised exactly when a side is zero, nothing else changes, and the event is never reported handled |
| `Application.Propagate` | Azteck/src/Azteck/Core/Application.cpp:62-68 | layers receive the event from the top of the stack down; every layer but the last one reached left it unhandled, and the last one's answer is the event's final state, so the loop stops right after the first handling layer; an event already handled reaches no layer |
| `Application.OnEvent` | Azteck/src/Azteck/Core/Application.cpp:53-69 | a close event stops the application and reaches no layer; a resize sets the minimised flag; any other event leaves the application alone; the layers then see the event top down, every one but the last reached leaving it unhandled, and the last one's answer is the final handled flag |
| `Application.UnhandledReachesEveryLayer` | Azteck/src/Azteck/Core/Application.cpp:62-68 | when no layer handles the event, every layer receives it and it ends unhandled |
| `Application.TopHandlerStops` | Azteck/src/Azteck/Core/Application.cpp:62-68 | when the top layer handles the event, no other layer sees it |
| `Application.CloseReachesNoLayer` | Azteck/src/Azteck/Core/Application.cpp:57-68 | a close event stops the application and reaches no layer, whatever the layers would do with it |
| `Application.RunFrame` | Azteck/src/Azteck/Core/Application.cpp:111-143 | a turn happens only while running; its timestep is the time since the last frame; a minimised application updates and renders no layer, otherwise every layer in stack order; the window is updated either way |
| `Application.MinimiseAndRestore` | Azteck/src/Azteck/Core/Application.cpp:95-143 | resizing to zero stops layer updates and resizing back resumes them; two frames' timesteps add up to the time they span |
| `Instrumentor.NewInstrumentor` | Azteck/src/Azteck/Debug/Instrumentor.cpp:7-10 | the profiler starts with no session and touches no file |
| `Instrumentor.Sanitise` | Azteck/src/Azteck/Debug/Instrumentor.cpp:56-57 | every double quote of the name becomes a single quote, every other character stays, and no double quote is left |
| `Instrumentor.RecordNameIsClosed` | Azteck/src/Azteck/Debug/Instrumentor.cpp:52-68 | whatever the name, the first double quote after the opening quote of a record's name field closes it, and the text in between is the sanitised name |
| `Instrumentor.InternalEndSession` | Azteck/src/Azteck/Debug/Instrumentor.cpp:96-105 | ending with no session changes nothing; ending a session appends the footer to its file and leaves no session |
| `Instrumentor.BeginSession` | Azteck/src/Azteck/Debug/Instrumentor.cpp:17-44 | an open session is ended first; when the file opens it is truncated to the header and the new session starts, and when it does not there is no session |
| `Instrumentor.EndSession` | Azteck/src/Azteck/Debug/Instrumentor.cpp:46-50 | `endSession` is the internal end, and keeps the state well formed |
| `Instrumentor.WriteProfile` | Azteck/src/Azteck/Debug/Instrumentor.cpp:52-76 | with a session, one record is appended to its file; without one nothing changes |
| `Instrumentor.OpenSessionText` | Azteck/src/Azteck/Debug/Instrumentor.cpp:17-88 | after opening a session and writing records, the file holds the header and then the records in order |
| `Instrumentor.WritesAppendRecords` | Azteck/src/Azteck/Debug/Instrumentor.cpp:52-76 | a run of writes appends exactly the records, in order, to the session's file |
| `Instrumentor.SessionText` | Azteck/src/Azteck/Debug/Instrumentor.cpp:17-105 | a whole session leaves its file as header, records and footer, no session open, and every other file unchanged |
| `Instrumentor.WritesTouchOnlyTheSessionFile` | Azteck/src/Azteck/Debug/Instrumentor.cpp:70-75 | writing records creates no file and changes no file but the session's |
| `Instrumentor.BeginWhileOpen` | Azteck/src/Azteck/Debug/Instrumentor.cpp:21-43 | beginning a session while one is open closes the first file with the footer, and when the new file fails to open, later writes are dropped |
| `Instrumentor.StartTimer` | Azteck/src/Azteck/Debug/Instrumentor.cpp:108-113 | a new timer keeps its name and start time and is not stopped |
| `Instrumentor.TimerResult` | Azteck/src/Azteck/Debug/Instrumentor.cpp:121-127 | the record carries the timer's name and start, and the elapsed time as the difference of the whole-microsecond time points |
| `Instrumentor.Stop` | Azteck/src/Azteck/Debug/Instrumentor.cpp:121-130 | `stop` writes the timer's record and marks the timer stopped |
| `Instrumentor.Destroy` | Azteck/src/Azteck/Debug/Instrumentor.cpp:115-119 | the destructor writes only when the timer was not stopped |
| `Instrumentor.StopThenDestroyWritesOnce` | Azteck/src/Azteck/Debug/Instrumentor.cpp:115-130 | a timer stopped and then destroyed writes exactly one record |
| `Instrumentor.FormatExamples` | Azteck/src/Azteck/Debug/Instrumentor.cpp:57-67 | `a"b` is written as `a'b`, and a start of 2000250 ns is written with three decimals as "2000.250" |
| `Components.DefaultTransform` | Azteck/src/Azteck/Scene/Components.h:22-35 | the default transform has zero translation and rotation and unit scale, i.e. the identity matrix the component starts with |
| `Components.DefaultSpriteColor` | Azteck/src/Azteck/Scene/Components.h:37-47 | a sprite starts opaque white, every channel 1 |
| `Components.NewCameraComponent` | Azteck/src/Azteck/Scene/Components.h:49-57 | a camera component starts primary and without a fixed aspect ratio, holding the given camera |
| `Components.NewNativeScript` | Azteck/src/Azteck/Scene/Components.h:59-64 | a native script component starts with a null instance and nothing bound |
| `Components.Bind` | Azteck/src/Azteck/Scene/Components.h:66-71 | `bind<T>` installs script type T and leaves any instance alone |
| `Components.DestroyScript` | Azteck/src/Azteck/Scene/Components.h:70 | the bound destroyer nulls the instance and keeps the binding |
| `Components.BindThenDestroy` | Azteck/src/Azteck/Scene/Components.h:59-72 | for every native-script component, destroying after a bind leaves the bound script and no instance, a later bind replaces an earlier one, and destroying twice is destroying once |
| `Scene.EntityEquality` | Azteck/src/Azteck/Scene/Entity.h:58-63 | two entities compare equal exactly when handle and scene agree, `!=` is the negation, and only a null handle is falsy |
| `Scene.NewScene` | Azteck/src/Azteck/Scene/Scene.cpp:10-14 | a new scene is valid, has no entities and a 0 × 0 viewport |
| `Scene.OnComponentAdded` | Azteck/src/Azteck/Scene/Scene.cpp:99-129 | a camera gets the stored viewport size with its primary and aspect flags kept; every other kind of component is left as it is |
| `Scene.AddComponent` | Azteck/src/Azteck/Scene/Entity.h:17-25 | for an entity without a T, the T is stored after the scene's added-hook, every other kind of the entity and every other entity stay the same, and validity is kept |
| `Scene.AddOrReplaceComponent` | Azteck/src/Azteck/Scene/Entity.h:27-33 | with no precondition on the entity's kinds, the T is stored (replacing any old one) after the added-hook, and nothing else changes |
| `Scene.GetComponent` | Azteck/src/Azteck/Scene/Entity.h:35-40 | only for an entity that has a T, the result is a component of that kind held by the entity |
| `Scene.RemoveComponent` | Azteck/src/Azteck/Scene/Entity.h:42-47 | for an entity that has a T, afterwards it has none, its other kinds and every other entity are unchanged |
| `Scene.AddThenRemove` | Azteck/src/Azteck/Scene/Entity.h:17-47 | removing a just-added component gives back the scene, and on an entity without the kind add-or-replace is add |
| `Scene.UUIDOf` | Azteck/src/Azteck/Scene/Entity.h:55 | `getUUID` returns the id held by the entity's id component |
| `Scene.NameOf` | Azteck/src/Azteck/Scene/Entity.h:56 | `getName` returns the tag held by the entity's tag component |
| `Scene.CreateEntity` | Azteck/src/Azteck/Scene/Scene.cpp:20-29 | a fresh handle is appended with exactly a default transform and a tag, named "Entity" when the name is empty; all old entities and the viewport are kept and the scene stays valid |
| `Scene.CreateEntityWithUUID` | Azteck/src/Azteck/Scene/SceneSerializer.cpp:210 | as `createEntity`, and the new entity also carries the given id, so it holds exactly id, transform and tag |
| `Scene.CreatedWithUUIDSet` | Azteck/src/Azteck/Scene/SceneSerializer.cpp:210 | the component set a loaded entity starts with, written out in full |
| `Scene.DestroyEntity` | Azteck/src/Azteck/Scene/Scene.cpp:31-34 | the entity and all its components go, every other entity keeps its components, the order loses exactly that handle and the scene stays valid |
| `Scene.CreateThenDestroy` | Azteck/src/Azteck/Scene/Scene.cpp:20-34 | destroying a just-created entity gives back the entities and their order |
| `Scene.OnViewportResize` | Azteck/src/Azteck/Scene/Scene.cpp:84-97 | the size is stored; each camera without a fixed aspect ratio is fitted to it, fixed ones and every non-camera component are untouched |
| `Scene.ResizeThenAddAgree` | Azteck/src/Azteck/Scene/Scene.cpp:84-114 | after a resize, a camera added later gets the same aspect as the cameras the resize fitted |
| `Scene.FirstPrimary` | Azteck/src/Azteck/Scene/Scene.cpp:53-67 | the search finds the first entity, in creation order, with a transform and a primary camera, and finds none exactly when there is none |
| `Scene.PrimaryCamera` | Azteck/src/Azteck/Scene/Scene.cpp:53-67 | the camera of a scene is a live primary camera entity, and there is none exactly when no entity qualifies |
| `Scene.Sprites` | Azteck/src/Azteck/Scene/Scene.cpp:73-79 | the drawn entities are exactly those with both a transform and a sprite |
| `Scene.TickScript` | Azteck/src/Azteck/Scene/Scene.cpp:38-50 | an entity's script is instantiated and gets `onCreate` only when it has no instance, then always gets `onUpdate`; other kinds are kept |
| `Scene.RunScripts` | Azteck/src/Azteck/Scene/Scene.cpp:38-50 | the script pass keeps every entity and changes none outside the view |
| `Scene.RunScriptsCalls` | Azteck/src/Azteck/Scene/Scene.cpp:38-50 | every scripted entity gets `onUpdate(ts)`, and `onCreate` exactly those without an instance |
| `Scene.RunScriptsPaired` | Azteck/src/Azteck/Scene/Scene.cpp:40-49 | every `onCreate` is followed at once by the same entity's `onUpdate` |
| `Scene.RunScriptsState` | Azteck/src/Azteck/Scene/Scene.cpp:38-50 | afterwards every script has an instance with its binding kept; an existing instance and unscripted entities are untouched |
| `Scene.OnUpdate` | Azteck/src/Azteck/Scene/Scene.cpp:36-82 | a frame is drawn exactly when a primary camera exists, with that camera and exactly the sprite entities |
| `Scene.SecondUpdateCreatesNothing` | Azteck/src/Azteck/Scene/Scene.cpp:40-47 | a second update creates no script and updates the same entities as the first |
| `SceneSerializer.BodyTypeFromString` | Azteck/src/Azteck/Scene/SceneSerializer.cpp:126-134 | the three names give their body types; any other name fails the "Unknown type" assertion and gives the value-initialised type, Static |
| `SceneSerializer.BodyTypeRoundTrip` | Azteck/src/Azteck/Scene/SceneSerializer.cpp:111-134 | reading a written body type gives it back with no assertion, distinct types are written differently, and names are case-sensitive |
| `SceneSerializer.EncodeEntity` | Azteck/src/Azteck/Scene/SceneSerializer.cpp:281-286 | an entity's map starts with its id under "Entity" |
| `SceneSerializer.EntityLookup` | Azteck/src/Azteck/Scene/SceneSerializer.cpp:281-389 | in a written entity the id is under "Entity" and each other kind's section is present exactly when the entity has that kind, holding its encoding |
| `SceneSerializer.Serialize` | Azteck/src/Azteck/Scene/SceneSerializer.cpp:141-166 | the document names the scene "Untitled" and lists one entity map per live entity, in the scene's entity order |
| `SceneSerializer.ReadComponent` | Azteck/src/Azteck/Scene/SceneSerializer.cpp:212-269 | reading a section of a given kind always yields a component of that kind, whether or not a read threw |
| `SceneSerializer.ReadTransformComponent` | Azteck/src/Azteck/Scene/SceneSerializer.cpp:212-218 | a transform section reads into a transform component |
| `SceneSerializer.ReadCameraComponent` | Azteck/src/Azteck/Scene/SceneSerializer.cpp:220-237 | a camera section reads into a camera component |
| `SceneSerializer.ReadSpriteComponent` | Azteck/src/Azteck/Scene/SceneSerializer.cpp:239-243 | a sprite section reads into a sprite component |
| `SceneSerializer.ReadCircleComponent` | Azteck/src/Azteck/Scene/SceneSerializer.cpp:245-251 | a circle section reads into a circle component |
| `SceneSerializer.ReadBodyComponent` | Azteck/src/Azteck/Scene/SceneSerializer.cpp:253-258 | a rigid-body section reads into a rigid-body component |
| `SceneSerializer.ReadBoxComponent` | Azteck/src/Azteck/Scene/SceneSerializer.cpp:260-269 | a box-collider section reads into a box-collider component |
| `SceneSerializer.ReadTransformRoundTrip` | Azteck/src/Azteck/Scene/SceneSerializer.cpp:212-218 | reading a written transform section gives back translation, rotation and scale, whatever the transform started as |
| `SceneSerializer.ReadCameraRoundTrip` | Azteck/src/Azteck/Scene/SceneSerializer.cpp:220-237 | reading a written camera section restores every written property and both flags; only the aspect ratio, which is not written, stays that of the camera read into |
| `SceneSerializer.ReadSpriteRoundTrip` | Azteck/src/Azteck/Scene/SceneSerializer.cpp:239-243 | reading a written sprite section gives back its colour |
| `SceneSerializer.ReadCircleRoundTrip` | Azteck/src/Azteck/Scene/SceneSerializer.cpp:245-251 | reading a written circle section gives back colour, thickness and fade |
| `SceneSerializer.ReadBodyRoundTrip` | Azteck/src/Azteck/Scene/SceneSerializer.cpp:253-258 | reading a written rigid-body section gives back body type and fixed rotation |
| `SceneSerializer.ReadBoxRoundTrip` | Azteck/src/Azteck/Scene/SceneSerializer.cpp:260-269 | reading a written box-collider section gives back all six fields |
| `SceneSerializer.ReadSection` | Azteck/src/Azteck/Scene/SceneSerializer.cpp:212-269 | one section read keeps the entity's set well-kinded and does nothing once a read has thrown |
| `SceneSerializer.ReadSections` | Azteck/src/Azteck/Scene/SceneSerializer.cpp:212-269 | the section reads in order keep the set well-kinded and stop at the first throw |
| `SceneSerializer.ReadComponents` | Azteck/src/Azteck/Scene/SceneSerializer.cpp:212-269 | all sections of one entity leave its set well-kinded |
| `SceneSerializer.LoadEntity` | Azteck/src/Azteck/Scene/SceneSerializer.cpp:198-269 | loading one entity keeps the scene valid and every old entity, and adds one entity unless the id or name read threw |
| `SceneSerializer.LoadEntities` | Azteck/src/Azteck/Scene/SceneSerializer.cpp:198-270 | the entity loop keeps the scene valid and every old entity, adds at most one entity per item, and never returns false |
| `SceneSerializer.Deserialize` | Azteck/src/Azteck/Scene/SceneSerializer.cpp:173-273 | a parse error, a missing "Scene" or a missing "Entities" returns false with the scene untouched; another loader error escapes; old entities are always kept |
| `SceneSerializer.NullSceneNameLoads` | Azteck/src/Azteck/Scene/SceneSerializer.cpp:185-197 | a null scene name passes the presence check and reads as "null", so a file with it and an empty entity list loads |
| `SceneSerializer.Reloaded` | Azteck/src/Azteck/Scene/SceneSerializer.cpp:220-237 | a reloaded component keeps its kind; only a camera changes, by being fitted to the viewport |
| `SceneSerializer.ComponentRoundTrip` | Azteck/src/Azteck/Scene/SceneSerializer.cpp:212-389 | every section kind written for an entity reads back as that component, with a camera fitted to the loading scene's viewport |
| `SceneSerializer.SectionRoundTrip` | Azteck/src/Azteck/Scene/SceneSerializer.cpp:212-269 | one section read on a written entity puts the reloaded component in when the entity had it and changes nothing otherwise |
| `SceneSerializer.ReadSectionsRoundTrip` | Azteck/src/Azteck/Scene/SceneSerializer.cpp:212-269 | reading any list of section kinds of a written entity never throws and puts in exactly the reloaded components present |
| `SceneSerializer.ReadComponentsRoundTrip` | Azteck/src/Azteck/Scene/SceneSerializer.cpp:212-269 | all sections of a written entity read back without a throw |
| `SceneSerializer.ReloadedEntityContents` | Azteck/src/Azteck/Scene/SceneSerializer.cpp:198-389 | a written entity reads back with its id, its tag or "Entity", its transform or the default one, every other written component (cameras refitted), and no native script |
| `SceneSerializer.ReloadKeepsPlainEntity` | Azteck/src/Azteck/Scene/SceneSerializer.cpp:198-389 | an entity with a transform, a non-empty tag, no camera and no script reads back exactly as written |
| `SceneSerializer.EntityHeaderRead` | Azteck/src/Azteck/Scene/SceneSerializer.cpp:200-208 | a written entity's id reads back as a 64-bit value and its name as its tag, or empty without one |
| `SceneSerializer.CreateThenFill` | Azteck/src/Azteck/Scene/SceneSerializer.cpp:210 | creating an entity with an id and then replacing its set is appending that set under the next handle |
| `SceneSerializer.LoadEntityIsAppend` | Azteck/src/Azteck/Scene/SceneSerializer.cpp:198-269 | loading a written entity appends its reloaded form and succeeds |
| `SceneSerializer.LoadEntitiesRoundTrip` | Azteck/src/Azteck/Scene/SceneSerializer.cpp:198-272 | loading a written list of entities appends their reloaded forms in order and returns true |
| `SceneSerializer.AppendAllFrame` | Azteck/src/Azteck/Scene/SceneSerializer.cpp:198-272 | the appended entities come after the old order, one per item; the old entities and the viewport are kept |
| `SceneSerializer.AppendAllAt` | Azteck/src/Azteck/Scene/SceneSerializer.cpp:198-272 | the i-th appended handle holds the i-th written entity in its reloaded form |
| `SceneSerializer.SceneRoundTrip` | Azteck/src/Azteck/Scene/SceneSerializer.cpp:141-273 | reading a serialized scene into any valid scene appends every entity in the scene's entity order, reloaded, and returns true |
| `SceneSerializer.SceneRoundTripAt` | Azteck/src/Azteck/Scene/SceneSerializer.cpp:141-273 | after the round trip the scene has one new entity per written one, the i-th holding the i-th written entity reloaded |
| `Yaml.Get` | Azteck/src/Azteck/Scene/SceneSerializer.cpp:185-203 | a subscript throws exactly on a scalar node and finds a child only in a map |
| `Yaml.EntryAppend` | Azteck/src/Azteck/Scene/SceneSerializer.cpp:285-388 | a key looked up in a map written in two parts is found in the first part if there, else in the second |
| `Yaml.AsString` | Azteck/src/Azteck/Scene/SceneSerializer.cpp:188 | `as<std::string>()` reads a null node as "null" and a string, integer or boolean scalar as its text; a sequence, a map or an undefined node throws |
| `Yaml.AsReal` | Azteck/src/Azteck/Scene/SceneSerializer.cpp:227-233 | `as<float>()` gives a value exactly for a defined numeric scalar, the written value for a real |
| `Yaml.AsInt` | Azteck/src/Azteck/Scene/SceneSerializer.cpp:225 | `as<int>()` gives a value exactly for a defined integer scalar |
| `Yaml.AsU64` | Azteck/src/Azteck/Scene/SceneSerializer.cpp:200 | `as<uint64_t>()` gives a value exactly for an integer scalar in the 64-bit unsigned range, and that value |
| `Yaml.AsBool` | Azteck/src/Azteck/Scene/SceneSerializer.cpp:235-236 | `as<bool>()` gives a value exactly for a defined boolean scalar |
| `Yaml.EncodeVec2` | Azteck/src/Azteck/Scene/SceneSerializer.cpp:15-22 | a `vec2` is written as a sequence of two numbers |
| `Yaml.EncodeVec3` | Azteck/src/Azteck/Scene/SceneSerializer.cpp:38-46 | a `vec3` is written as a sequence of three numbers |
| `Yaml.EncodeVec4` | Azteck/src/Azteck/Scene/SceneSerializer.cpp:63-72 | a `vec4` is written as a sequence of four numbers |
| `Yaml.DecodeVec2` | Azteck/src/Azteck/Scene/SceneSerializer.cpp:24-32 | decoding returns false exactly when the node is not a two-item sequence; otherwise it succeeds exactly when both items are numbers, giving them as x and y |
| `Yaml.DecodeVec3` | Azteck/src/Azteck/Scene/SceneSerializer.cpp:48-57 | decoding returns false exactly when the node is not a three-item sequence; otherwise it succeeds exactly when all items are numbers |
| `Yaml.DecodeVec4` | Azteck/src/Azteck/Scene/SceneSerializer.cpp:74-84 | decoding returns false exactly when the node is not a four-item sequence; otherwise it succeeds exactly when all items are numbers |
| `Yaml.AsVec2` | Azteck/src/Azteck/Scene/SceneSerializer.cpp:263-264 | `as<glm::vec2>()` gives a value exactly when the node is defined and decodes |
| `Yaml.AsVec3` | Azteck/src/Azteck/Scene/SceneSerializer.cpp:215-217 | `as<glm::vec3>()` gives a value exactly when the node is defined and decodes |
| `Yaml.AsVec4` | Azteck/src/Azteck/Scene/SceneSerializer.cpp:242 | `as<glm::vec4>()` gives a value exactly when the node is defined and decodes |
| `Yaml.VecRoundTrip` | Azteck/src/Azteck/Scene/SceneSerializer.cpp:12-85 | decoding an encoded vector of each size gives it back |
| `Yaml.VecLengthMismatch` | Azteck/src/Azteck/Scene/SceneSerializer.cpp:26-27 | a sequence of the wrong length or a scalar does not decode, and reading it with `as` throws |
| `Yaml.Items` | Azteck/src/Azteck/Scene/SceneSerializer.cpp:191-198 | iterating a sequence gives its items; iterating a non-empty map throws at the first item's subscript |
| `ProjectSerializer.DefaultConfig` | Azteck/src/Azteck/Project/Project.h:7-14 | a new configuration is named "Untitled" with empty paths |
| `ProjectSerializer.Serialize` | Azteck/src/Azteck/Project/ProjectSerializer.cpp:14-37 | the written "Project" map holds the four fields as strings, and serialize always reports success |
| `ProjectSerializer.Deserialize` | Azteck/src/Azteck/Project/ProjectSerializer.cpp:39-64 | a parse error or a missing "Project" returns false with the configuration untouched, another load failure escapes; true means all four fields were read from the file |
| `ProjectSerializer.RoundTrip` | Azteck/src/Azteck/Project/ProjectSerializer.cpp:14-64 | reading a written configuration over any previous one gives the written one and returns true |
| `ProjectSerializer.PartialUpdate` | Azteck/src/Azteck/Project/ProjectSerializer.cpp:58-61 | a project map with only a name assigns the name and then escapes: the configuration is left half-updated |
| `SceneCamera.NewCamera` | Azteck/src/Azteck/Scene/SceneCamera.cpp:8-15 | a new scene camera has orthographic size 10, near -1, far 1 and aspect 1 |
| `SceneCamera.SetOrthographic` | Azteck/src/Azteck/Scene/SceneCamera.cpp:17-23 | the size and both clips are set together, and the aspect and perspective are kept |
| `SceneCamera.SetOrthographicSize` | Azteck/src/Azteck/Scene/SceneCamera.cpp:31-35 | only the size changes |
| `SceneCamera.SetOrthographicClips` | Azteck/src/Azteck/Scene/SceneSerializer.cpp:232-233 | the near and far clip setters change only the clips |
| `SceneCamera.SetViewportSize` | Azteck/src/Azteck/Scene/SceneCamera.cpp:25-29 | the aspect becomes width over height, so aspect × height = width; a zero height gives no finite aspect; nothing else changes |
| `SceneCamera.OrthoBounds` | Azteck/src/Azteck/Scene/SceneCamera.cpp:37-46 | the projection box exists exactly when the aspect is finite |
| `SceneCamera.BoundsShape` | Azteck/src/Azteck/Scene/SceneCamera.cpp:37-46 | the box is centred on the camera, size × aspect wide and size tall |
| `SceneCamera.ViewportExample` | Azteck/src/Azteck/Scene/SceneCamera.cpp:8-46 | a default camera fitted to 1600 × 900 spans (-80/9, 80/9, -5, 5) |
| `OrthoController.BoxFor` | Azteck/src/Azteck/Renderer/OrthographicCameraController.cpp:82 | the projection box is centred, 2 × aspect × zoom wide and 2 × zoom tall, and exists exactly when the aspect is finite |
| `OrthoController.NewController` | Azteck/src/Azteck/Renderer/OrthographicCameraController.cpp:10-21 | a new controller has zoom 1, box (-aspect, aspect, -1, 1), speed 5, rotation speed 180 and everything else zero |
| `OrthoController.WrapRotation` | Azteck/src/Azteck/Renderer/OrthographicCameraController.cpp:56-59 | the wrap subtracts or adds at most one turn, keeps an angle already in (-180, 180], and brings any angle within one turn of that range into it |
| `OrthoController.OnUpdate` | Azteck/src/Azteck/Renderer/OrthographicCameraController.cpp:23-67 | an update hands the position to the camera, the rotation too only when rotation is on, sets the speed to the zoom, and leaves zoom, box and height alone |
| `OrthoController.KeyPrecedence` | Azteck/src/Azteck/Renderer/OrthographicCameraController.cpp:27-54 | A wins over D, W over S and Q over E |
| `OrthoController.OppositeKeysCancel` | Azteck/src/Azteck/Renderer/OrthographicCameraController.cpp:27-47 | with no key the camera stays put, and at the same angle D undoes A and S undoes W |
| `OrthoController.RotationStaysInRange` | Azteck/src/Azteck/Renderer/OrthographicCameraController.cpp:49-59 | at 180 degrees a second and frames up to two seconds, the rotation stays in (-180, 180] |
| `OrthoController.OnMouseScrolled` | Azteck/src/Azteck/Renderer/OrthographicCameraController.cpp:95-103 | the zoom drops by a quarter per notch but never below a quarter, the box follows the new zoom, nothing else changes, and the event is not consumed |
| `OrthoController.ScrollUndo` | Azteck/src/Azteck/Renderer/OrthographicCameraController.cpp:95-103 | a scroll that stays above the floor is undone by the opposite scroll |
| `OrthoController.OnResize` | Azteck/src/Azteck/Renderer/OrthographicCameraController.cpp:79-83 | the aspect becomes width over height (not finite for a zero height) and the box is rebuilt at the current zoom |
| `OrthoController.OnWindowResized` | Azteck/src/Azteck/Renderer/OrthographicCameraController.cpp:105-111 | a window resize resizes to the event's size and is not consumed |
| `OrthoController.SetZoomLevel` | Azteck/src/Azteck/Renderer/OrthographicCameraController.cpp:85-88 | only the zoom changes; the box keeps the old zoom until the next scroll or resize |
| `OrthoController.OnEvent` | Azteck/src/Azteck/Renderer/OrthographicCameraController.cpp:69-77 | scrolls and resizes go to their handlers and leave the event not handled; every other event passes through untouched |
| `Timestep.DefaultTimestep` | Azteck/src/Azteck/Core/Timestep.h:8-10 | the default timestep is zero seconds and zero milliseconds |
| `Timestep.Milliseconds` | Azteck/src/Azteck/Core/Timestep.h:15 | milliseconds are a thousand times the seconds |
| `Timestep.MillisecondsAgreeWithSeconds` | Azteck/src/Azteck/Core/Timestep.h:12-15 | milliseconds over a thousand give the seconds, the conversion keeps order, and equal milliseconds mean equal timesteps |
| `EditorCamera.UpdateView` | Azteck/src/Azteck/Renderer/EditorCamera.cpp:27-35 | the eye is placed so that the focal point lies `distance` ahead of it along the forward direction; nothing else changes |
| `EditorCamera.NewCamera` | Azteck/src/Azteck/Renderer/EditorCamera.h:53-69 | a new editor camera looks at the origin from distance 10 with zero pitch and yaw, over a 1280 × 720 viewport, with the given aspect |
| `EditorCamera.SetViewportSize` | Azteck/src/Azteck/Renderer/EditorCamera.h:24 | the viewport is stored and the aspect becomes width over height (not finite for a zero height); nothing else changes |
| `EditorCamera.PanSpeed` | Azteck/src/Azteck/Renderer/EditorCamera.cpp:37-46 | the pan factors are the capped quadratic of the viewport width and height |
| `EditorCamera.PanFactorBounds` | Azteck/src/Azteck/Renderer/EditorCamera.cpp:37-46 | a pan factor is always above 0.085, at most 0.3021 for a non-negative size, and never grows as the viewport grows |
| `EditorCamera.ZoomSpeed` | Azteck/src/Azteck/Renderer/EditorCamera.cpp:53-60 | the zoom speed is the square of a fifth of the distance, zero for a non-positive distance, capped at 100 from distance 50 on |
| `EditorCamera.ZoomSpeedMonotone` | Azteck/src/Azteck/Renderer/EditorCamera.cpp:53-60 | zooming is never slower farther out |
| `EditorCamera.MouseZoom` | Azteck/src/Azteck/Renderer/EditorCamera.cpp:109-117 | the distance shrinks by delta × zoom speed; below 1 it is reset to 1 and the focal point steps forward; the distance ends at least 1 |
| `EditorCamera.MouseZoomDirection` | Azteck/src/Azteck/Renderer/EditorCamera.cpp:109-117 | from at least the floor, zooming in never moves the camera out and zooming out never moves it in |
| `EditorCamera.MousePan` | Azteck/src/Azteck/Renderer/EditorCamera.cpp:95-100 | a pan moves only the focal point |
| `EditorCamera.StillPanKeepsFocus` | Azteck/src/Azteck/Renderer/EditorCamera.cpp:95-100 | a pan with no mouse movement changes nothing |
| `EditorCamera.PanBack` | Azteck/src/Azteck/Renderer/EditorCamera.cpp:95-100 | panning by a movement and then by its opposite gives the camera back |
| `EditorCamera.MouseRotate` | Azteck/src/Azteck/Renderer/EditorCamera.cpp:102-107 | pitch follows the vertical movement at 0.8; yaw follows the horizontal movement, reversed when upside down; nothing else changes |
| `EditorCamera.RotateBack` | Azteck/src/Azteck/Renderer/EditorCamera.cpp:102-107 | rotating back by the opposite movement undoes a rotation when the camera is the same way up at both ends |
| `EditorCamera.OnUpdate` | Azteck/src/Azteck/Renderer/EditorCamera.cpp:62-79 | without Left Alt only the view is refreshed; with it the mouse position is remembered; the distance never drops below the floor unless it was already there |
| `EditorCamera.ButtonPrecedence` | Azteck/src/Azteck/Renderer/EditorCamera.cpp:70-75 | the middle button wins over the left, the left over the right, and without Alt no button matters |
| `EditorCamera.OnMouseScroll` | Azteck/src/Azteck/Renderer/EditorCamera.cpp:87-93 | a scroll zooms without going below the floor, keeps the angles, and is not consumed |
| `EditorCamera.OnEvent` | Azteck/src/Azteck/Renderer/EditorCamera.cpp:81-85 | only a scroll is handled, leaving the event not handled; every other event passes untouched |
| `EditorLayer.ActiveScene` | Azteck-Editor/src/EditorLayer.cpp:387-400 | the active-scene pointer refers either to the editor scene itself or to a scene of its own |
| `EditorLayer.ToU32` | Azteck-Editor/src/EditorLayer.cpp:417 | the `uint32_t` cast of an in-range viewport size truncates it to the whole pixels below it |
| `EditorLayer.StartScene` | Azteck-Editor/src/EditorLayer.cpp:39-49 | the attach step makes a valid scene, the empty scene when no file is named on the command line |
| `EditorLayer.AttachAsWritten` | Azteck-Editor/src/EditorLayer.cpp:25-50 | as written, attaching sets the active scene but leaves the editor scene null, in Edit with the Translate gizmo |
| `EditorLayer.Attach` | Azteck-Editor/src/EditorLayer.cpp:25-50 | with the editor scene set to the started scene, the editor is valid, edits that scene, and has no path and no selection |
| `EditorLayer.OnScenePlay` | Azteck-Editor/src/EditorLayer.cpp:380-391 | play needs an editor scene; it saves the gizmo, hides it, and runs a copy of the editor scene |
| `EditorLayer.OnSceneStop` | Azteck-Editor/src/EditorLayer.cpp:393-403 | stop returns to Edit, restores the saved gizmo and points the active scene back at the editor scene |
| `EditorLayer.PlayThenStop` | Azteck-Editor/src/EditorLayer.cpp:380-403 | playing then stopping gives back the editing state with the same gizmo |
| `EditorLayer.PlayKeepsEditorScene` | Azteck-Editor/src/EditorLayer.cpp:380-391 | play leaves the editor scene alone and runs an equal copy of it |
| `EditorLayer.PlayAfterAttachAsWritten` | Azteck-Editor/src/EditorLayer.cpp:25-50 | after the attach as written the editor is not valid and play has no editor scene to copy; after the corrected attach play works |
| `EditorLayer.Toolbar` | Azteck-Editor/src/EditorLayer.cpp:505-511 | the toolbar button plays in Edit and stops in Play, always switching state, and keeps a valid editor valid |
| `EditorLayer.ToolbarTwice` | Azteck-Editor/src/EditorLayer.cpp:505-511 | pressing the button twice returns to Edit with the same gizmo and active scene |
| `EditorLayer.NewScene` | Azteck-Editor/src/EditorLayer.cpp:414-422 | the editor scene becomes an empty scene fitted to the viewport, the active scene follows it and the path is cleared; nothing else changes |
| `EditorLayer.OpenScene` | Azteck-Editor/src/EditorLayer.cpp:431-453 | a running scene is stopped first; a non-".yaml" path changes nothing more; given what reading the file gives, a scene that loads becomes the fitted editor and active scene with its path, and a failed load keeps scene and path |
| `EditorLayer.OpenReadsFile` | Azteck-Editor/src/EditorLayer.cpp:431-453 | opening a ".yaml" file that reads through puts the valid scene `deserialize` builds from a fresh one, fitted, in the editor; a file that does not parse leaves the editor scene and path as they were |
| `EditorLayer.OpenSceneDialog` | Azteck-Editor/src/EditorLayer.cpp:424-429 | a cancelled dialog changes nothing; a chosen file is opened |
| `EditorLayer.SaveSceneAs` | Azteck-Editor/src/EditorLayer.cpp:455-463 | a cancelled dialog writes nothing; a chosen file receives the active scene and becomes the path |
| `EditorLayer.SaveScene` | Azteck-Editor/src/EditorLayer.cpp:465-471 | with a path the active scene is written there; without one it is save-as |
| `EditorLayer.SaveWithPathIgnoresDialog` | Azteck-Editor/src/EditorLayer.cpp:465-471 | once there is a path, the dialog's answer makes no difference to save |
| `EditorLayer.SaveAsThenSave` | Azteck-Editor/src/EditorLayer.cpp:455-471 | a save after a save-as writes the same scene to the same file |
| `EditorLayer.DuplicateEntity` | Azteck-Editor/src/EditorLayer.cpp:405-412 | duplication happens only in Edit with a selection, and then acts on the editor scene |
| `EditorLayer.Shortcut` | Azteck-Editor/src/EditorLayer.cpp:312-367 | every shortcut keeps the editor valid |
| `EditorLayer.OnKeyPressedAsWritten` | Azteck-Editor/src/EditorLayer.cpp:307-368 | as written, a repeat returns false and a first press runs the shortcut but returns no value |
| `EditorLayer.OnKeyPressed` | Azteck-Editor/src/EditorLayer.cpp:307-368 | repeats are ignored, a first press runs its shortcut, the event is never consumed, and the editor stays valid |
| `EditorLayer.KeyPressedReturnValue` | Azteck-Editor/src/EditorLayer.cpp:307-368 | the corrected handler acts as the written one and returns what it returns whenever the written one returns at all, which is exactly on repeats |
| `EditorLayer.RepeatsIgnored` | Azteck-Editor/src/EditorLayer.cpp:309-310 | a repeated key press does nothing and is not consumed |
| `EditorLayer.NoControlNoCommand` | Azteck-Editor/src/EditorLayer.cpp:317-346 | without Control, S, N, O and D do nothing |
| `EditorLayer.ControlCommands` | Azteck-Editor/src/EditorLayer.cpp:317-346 | with Control, S saves (save-as with Shift), N makes a new scene, O opens and D duplicates |
| `EditorLayer.GizmoKeys` | Azteck-Editor/src/EditorLayer.cpp:335-363 | Q, W, E and R pick no gizmo, translate, rotate and scale, unless the gizmo is in use, when they do nothing |
| `EditorLayer.OtherKeysIgnored` | Azteck-Editor/src/EditorLayer.cpp:365-366 | every other key does nothing |
| `EditorLayer.FitViewport` | Azteck-Editor/src/EditorLayer.cpp:61-68 | when the panel has a size the framebuffer lacks, framebuffer, editor camera and active scene are all brought to it; otherwise nothing changes |
| `EditorLayer.FitViewportSettles` | Azteck-Editor/src/EditorLayer.cpp:61-68 | a whole-pixel size the framebuffer accepts is fitted once and the next frame does nothing |
| `EditorLayer.OnMouseButtonPressed` | Azteck-Editor/src/EditorLayer.cpp:370-378 | a left click that may select makes the hovered entity the selection; anything else changes nothing; the click is not consumed |
| `EditorLayer.PixelEntity` | Azteck-Editor/src/EditorLayer.cpp:103-104 | pixel value -1 is the null entity and every other value names a 32-bit handle, itself when in range |
| `EditorLayer.Pick` | Azteck-Editor/src/EditorLayer.cpp:92-105 | inside the viewport the hovered entity becomes the one under the mouse; outside it nothing changes |
| `EditorLayer.PickReadsOnlyViewport` | Azteck-Editor/src/EditorLayer.cpp:92-105 | picking depends only on the id image inside the viewport |
| `EditorLayer.PickThenClick` | Azteck-Editor/src/EditorLayer.cpp:92-105 | a selecting click after picking inside the viewport selects the entity drawn under the mouse |
| `EditorLayer.DispatchInput` | Azteck-Editor/src/EditorLayer.cpp:114-116 | key presses and mouse-button presses go to their handlers and are never consumed; other events pass untouched |
| `EditorLayer.OnEvent` | Azteck-Editor/src/EditorLayer.cpp:110-117 | the editor camera sees every event first, then key and button presses are handled; the layer never consumes one |
| `Strings.Find` | Azteck/src/Platform/OpenGL/OpenGLShader.cpp:278-289 | `find(pat, from)` answers the first occurrence of the token at or after `from`, and npos exactly when there is none |
| `Strings.FindFirstOf` | Azteck/src/Platform/OpenGL/OpenGLShader.cpp:281 | `find_first_of` answers the first line-end character at or after the start, npos when there is none |
| `Strings.FindFirstNotOf` | Azteck/src/Platform/OpenGL/OpenGLShader.cpp:287 | `find_first_not_of` answers the first character after the line ends, npos when only line ends remain |
| `Strings.FindLastOf` | Azteck/src/Platform/OpenGL/OpenGLShader.cpp:127 | `find_last_of` answers the last slash or backslash, npos when there is none |
| `Strings.RFind` | Azteck/src/Platform/OpenGL/OpenGLShader.cpp:130 | `rfind` answers the last dot, npos when there is none |
| `Strings.FindIsFirstOccurrence` | Azteck/src/Platform/OpenGL/OpenGLShader.cpp:278-289 | any position that is an occurrence with none before it is the answer of `find`; the answer is unique |
| `Paths.Parent` | Azteck-Editor/src/Panels/ContentBrowserPanel.cpp:25 | `parent_path` drops exactly the last component, and the empty path stays empty |
| `Paths.Join` | Azteck-Editor/src/Panels/ContentBrowserPanel.cpp:63 | `/=` with a file name keeps the path as a prefix and adds that name as the last component |
| `Paths.ParentOfJoin` | Azteck-Editor/src/Panels/ContentBrowserPanel.cpp:25-63 | the parent of a path joined with a name is the path again |
| `Paths.FileName` | Azteck-Editor/src/Panels/ContentBrowserPanel.cpp:43-63 | `filename` is the last component, or empty for the empty path |
| `Paths.NameExtension` | Azteck-Editor/src/EditorLayer.cpp:436 | a file name's extension starts with its last dot, runs to its end, holds no other dot, and is empty exactly for ".", "..", and names whose only dot leads or that have none |
| `Paths.Extension` | Azteck-Editor/src/EditorLayer.cpp:436 | a path's extension is a dot-led suffix of its file name, empty for the empty path |
| `Paths.ExtensionExamples` | Azteck-Editor/src/EditorLayer.cpp:436-440 | a ".yaml" scene passes the check; a dot-file, a name without a dot, and a dot only in a directory name do not |
| `ContentBrowser.NewBrowser` | Azteck-Editor/src/Panels/ContentBrowserPanel.cpp:9-15 | the panel starts in the asset directory, which is its base |
| `ContentBrowser.Back` | Azteck-Editor/src/Panels/ContentBrowserPanel.cpp:21-27 | away from the base the back button moves to the parent; at the base there is no button and nothing changes; the panel stays under the base |
| `ContentBrowser.DoubleClick` | Azteck-Editor/src/Panels/ContentBrowserPanel.cpp:60-65 | double-clicking a directory enters it; a file changes nothing; the panel stays under the base |
| `ContentBrowser.Frame` | Azteck-Editor/src/Panels/ContentBrowserPanel.cpp:17-79 | one frame, back button then a double-click, keeps the base and keeps the panel under it |
| `ContentBrowser.FramesStayWithin` | Azteck-Editor/src/Panels/ContentBrowserPanel.cpp:17-79 | any run of frames keeps the panel inside the asset directory |
| `ContentBrowser.BackUndoesEnter` | Azteck-Editor/src/Panels/ContentBrowserPanel.cpp:21-65 | going back from a directory just entered returns to where the panel was |
| `ContentBrowser.ColumnCount` | Azteck-Editor/src/Panels/ContentBrowserPanel.cpp:29-36 | the column count is at least one and is the number of whole 96-wide cells that fit the panel |
| `Scripts.Toward` | Azteck-Editor/SandboxProject/assets/scripts/Source/Player.cs:28-31 | one velocity component: +1 while the first key is down, else -1 for the second, else 0 |
| `Scripts.WasdDirection` | Azteck-Editor/SandboxProject/assets/scripts/Source/Player.cs:26-36 | W beats S on Y, and A (left) beats D (right) on X |
| `Scripts.ArrowDirection` | Azteck-Editor/SandboxProject/assets/scripts/Source/Camera.cs:24-34 | Up beats Down on Y, and Left beats Right on X |
| `Scripts.DirectionsAreUnit` | Azteck-Editor/SandboxProject/assets/scripts/Source/Player.cs:26-36 | each direction component is -1, 0 or 1 |
| `Scripts.DirectionPrecedence` | Azteck-Editor/SandboxProject/assets/scripts/Source/Camera.cs:26-34 | while the first key of a pair is held, the second key makes no difference |
| `Scripts.Push` | Azteck-Editor/SandboxProject/assets/scripts/Source/Player.cs:49-51 | the impulse is the direction scaled by speed times frame time, and it wakes the body |
| `Scripts.PushComponents` | Azteck-Editor/SandboxProject/assets/scripts/Source/Player.cs:49-51 | with a unit direction each axis is pushed by exactly -speed·ts, 0 or speed·ts |
| `Scripts.NewCameraScript` | Azteck-Editor/SandboxProject/assets/scripts/Source/Camera.cs:8-12 | the camera script starts with speed 1, distance 5 and no player |
| `Scripts.CameraOnCreate` | Azteck-Editor/SandboxProject/assets/scripts/Source/Camera.cs:14-17 | creation records the entity found by the name "Player", or none |
| `Scripts.CameraOnUpdate` | Azteck-Editor/SandboxProject/assets/scripts/Source/Camera.cs:19-41 | an update moves only the camera's translation; speed, distance and player stay |
| `Scripts.CameraFollows` | Azteck-Editor/SandboxProject/assets/scripts/Source/Camera.cs:19-41 | with a player the camera lands at the player's x and y plus the pan, at the set distance; without one it only pans and keeps its height |
| `Scripts.CameraSettlesOverPlayer` | Azteck-Editor/SandboxProject/assets/scripts/Source/Camera.cs:21-22 | with no arrow key held, a camera with a player ends over it wherever it started |
| `Scripts.NewPlayer` | Azteck-Editor/SandboxProject/assets/scripts/Source/Player.cs:9-10 | the player starts with speed 1 and time 0 |
| `Scripts.ZoomStep` | Azteck-Editor/SandboxProject/assets/scripts/Source/Player.cs:43-46 | Q moves the camera out by 2·speed·ts, else E moves it in by as much, else nothing |
| `Scripts.PlayerOnUpdate` | Azteck-Editor/SandboxProject/assets/scripts/Source/Player.cs:23-52 | an update adds the frame time, zooms the camera when there is one, and pushes the body in the WASD direction |
| `Scripts.ZoomPrecedenceAndUndo` | Azteck-Editor/SandboxProject/assets/scripts/Source/Player.cs:43-46 | Q beats E, and a frame of Q then an equal frame of E leaves the camera distance unchanged |
| `Scripts.PushWithoutCamera` | Azteck-Editor/SandboxProject/assets/scripts/Source/Player.cs:38-51 | whether a camera is found changes neither the push nor the player |
| `Scripts.PlayerTimeIsTotal` | Azteck-Editor/SandboxProject/assets/scripts/Source/Player.cs:25 | after any run of frames `Time` has grown by the sum of the frame times and the speed is unchanged |
| `Scripts.CorePlayerOnUpdate` | Azteck-ScriptCore/Source/Player.cs:20-37 | the script-core player pushes each axis by the WASD direction times 0.05·ts, and wakes the body |
| `Scripts.CorePlayerIsSlowSandboxPlayer` | Azteck-ScriptCore/Source/Player.cs:20-37 | the script-core player pushes exactly as the sandbox player at speed 0.05, each axis by -0.05·ts, 0 or 0.05·ts |

## Left out

- GPU, window and UI calls are not modelled. All `gl*`, GLFW and ImGui/ImGuizmo calls are side effects on foreign state. This covers texture, framebuffer and program creation, binds, draws, swaps, the docking UI, drawing `uiToolbar`, and the scene hierarchy panel.
- The shader compilation pipeline is out of scope. `compileOrGetVulkanBinaries`, `compileOrGetOpenGLBinaries`, `createProgram`, `reflect` and `readFile` are shaderc, SPIR-V-Cross and file I/O. A created shader comes in as a value.
- The scripting runtime is out of scope. Mono is foreign, so the C# scripts' engine calls become parameters: `Input.IsKeyDown`, `FindEntityByName`, `ApplyLinearImpulse` and the translation reads.
- Fonts are out of scope, because their atlas generation is a foreign library.
- yaml-cpp parsing and emitting are not modelled. A document is an abstract tree of typed scalars, sequences and maps. The text form of numbers, including float formatting, is not modelled. A parse error comes in as data.
- entt storage is not modelled. The registry is a map from handle to component set, and fresh handles are the next unused number.
- Scene.FirstPrimary: the registry's iteration order is taken as creation order, and destroying an entity keeps the order of the rest. entt iterates its packed storage newest first and destroys by swap-and-pop, so the real order can differ. This order decides which of several primary cameras `Scene.FirstPrimary` and `Scene.PrimaryCamera` pick, and the entity order `SceneSerializer.Serialize` writes.
- Matrix, quaternion and trigonometric maths use floating-point numerics and are out of scope. This covers glm transforms, `drawRotatedQuad`, `Math::decomposeTransform`, the editor camera's view matrix and its orientation vectors. The orientation reaches the model as a parameter.
- Floating-point rounding is not modelled. Every float is a `real`.
- UUID generation (random) and the wall clock are inputs.
- The profiler's mutex and thread ids are not modelled. The session logic is sequential, and the thread id is an input.
- `Scene::copy` is taken to produce an equal scene. The runtime scene's physics and script instances are not modelled.
- `onUpdateEditor` and `onUpdateRuntime` are left out beyond the native-script and primary-camera logic, because the rest is rendering.
- The backend factories are left out: `Texture.cpp`, `VertexArray.cpp`, `FrameBuffer.cpp`, `RendererAPI.cpp`, `RenderCommand` and `Renderer.cpp`. They only switch on the API enum.
- Windowing and input glue is left out, because it is I/O plumbing.
- File reading and the project path helpers depend on file-system state and are left out.
- The legacy duplicates `Azteck/src/Azteck/LayerStack.cpp` and `Azteck/src/Azteck/Application.cpp` are stale copies that do not match their headers. They are not part of this model.
- BufferLayout.CalculateOffsetsAndStride: offsets and the stride are unbounded sums, where the source's `uint32_t` `offset` and `_stride` wrap once the sizes pass 2^32 bytes. The largest element is 64 bytes, so only a layout of more than 2^26 elements would wrap. The same bound applies to `BufferLayout.NewLayout` and `BufferLayout.StrideIsSumOfSizes`.
- EditorCamera.UpdateView: the orientation quaternion is a parameter, so the contract states the camera position relative to the given forward vector, not the trigonometry.
- EditorCamera.MousePan: the pan is stated for whatever right/up vectors the orientation gives; the source's vectors come from the quaternion.
- EditorCamera.MouseRotate: the sign of the up vector's y, which picks the yaw direction, comes from the orientation parameter rather than from the quaternion.
- EditorLayer.Pick: the id image is a function from pixel to value, and the mouse position and the viewport's top-left corner are inputs rather than ImGui queries.
- EditorLayer.StartScene: a scene read that throws (`Yaml.Escaped`) is taken as a return with the scene built so far. In the source the exception leaves `onAttach`, and the model has no state for an editor whose attach never finished. The same holds for `EditorLayer.AttachAsWritten` and `EditorLayer.Attach`.
- EditorLayer.OpenScene: a scene read that throws (`Yaml.Escaped`) is taken as a return that keeps the state after the stop. In the source the exception leaves `openScene` and the event handler that called it. The model promises only what that return keeps; the same holds for `EditorLayer.OpenSceneDialog` and the Ctrl+O shortcut.
- EditorLayer.FitViewportSettles: stated only for whole-pixel viewport sizes that the framebuffer accepts. A fractional size is truncated on every frame, so a fractional size keeps triggering the resize.
- LayerStack.StepRefines: `popLayer` and `popOverlay` are required to target their own region, because the source's insert index goes wrong otherwise (shown by `LayerStack.PopLayerOnOverlayMisplaces`).
- Yaml.AsString: a float scalar read as a string throws here, where yaml-cpp gives the scalar's text, because the model keeps a float as its value and not as the text it was written as. A boolean reads as "true" or "false", the emitter's spelling, whatever spelling the file used.
- ShaderSource.PreProcess: an unknown stage name is taken as the debug build's assertion failure (`None`). In a release build `AZ_CORE_ASSERT` is compiled out, and the section's code is stored under key 0. The model does not describe that map; the same holds for `ShaderSource.PreProcessFrom`.
- Texture.SetDataSizeCheck: stated only while width × height × bytes per pixel fits in 32 bits; beyond that the source's `uint32_t` product wraps, and the model does not describe the wrapped check.

## Findings

| source | as written | input that shows it | evidently intended | confidence | as-written member | corrected member |
|---|---|---|---|---|---|---|
| Azteck/src/Azteck/Renderer/Renderer2D.cpp:193-199 | `drawQuad` stores a new texture at `textureSlots[textureSlotIndex]` with no check against the 32 slots | a scene that draws 32 distinct textures besides the white one writes a 33rd slot | flush the batch and start a new one when the slots are full, as the declared but undefined `flushAndReset` suggests | not executed | `Renderer2D.ThirtyTwoDistinctTexturesOverflow` | `Renderer2D.DrawQuad` |
| Azteck/src/Azteck/Renderer/Renderer2D.cpp:208-222 | the bottom-left corner takes `position.z`, but the other three corners are written with z = 0 | any quad drawn at position (0, 0, 1) | all four corners lie at the requested depth | not executed | `Renderer2D.CornersDepth` | `Renderer2D.QuadCorners` |
| Azteck/src/Platform/OpenGL/OpenGLTexture.cpp:23-25 | `_isLoaded` is only ever set to true, and has no initialiser | a path that fails to decode, or the (width, height) constructor | `isLoaded()` is false unless decoding succeeded | not executed | `Texture.FailedLoadFlagIsIndeterminate` | `Texture.LoadedFlagIsDefined` |
| Azteck-Editor/src/EditorLayer.cpp:307-368 | `onKeyPressed` returns a value only for repeats, and falls off the end otherwise | any first press, e.g. Ctrl+S with repeat count 0 | return false, because the event is not consumed | not executed | `EditorLayer.KeyPressedReturnValue` | `EditorLayer.OnKeyPressed` |
| Azteck-Editor/src/EditorLayer.cpp:25-50 | `onAttach` creates the active scene but never sets the editor scene | pressing play right after start-up copies a null scene | the editor scene is the scene the editor starts with | not executed | `EditorLayer.PlayAfterAttachAsWritten` | `EditorLayer.Attach` |
