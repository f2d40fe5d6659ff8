# Haunts: basic attacks and shader bookkeeping

This project models two small pieces of bookkeeping from the Haunts game
engine and proves their properties in Dafny.

**Basic-attack action family** (`basic_attacks.dfy`, module `BasicAttacks`).
`registerAttacks` resets the object-store partition `actions-attack_actions`.
It then fills the partition with the loaded `BasicAttackDef` records and
builds a map from each variant name to a constructor closure. The model calls
this partition `AttackStore`, whose field is a `map<string, BasicAttackDef>`.
A closure is a `Maker` value holding the name it captured. `Construct` models
calling one: it builds a `BasicAttack` with that name and looks up its
definition in the store as it stands at the time of the call. `BuildMakers`
is the `for name := range attack_actions` loop. It picks names in an
unspecified order, as Go's iteration does. The eight lifecycle methods of
`BasicAttack` are pure functions. `Run` replays any sequence of calls to
them. `Drive` is a minimal game loop (Readyable, Prep, HandleInput, charge
Cost, HandleOutput, then Maintain once per tick). It is there to state the
"instant" promise of the type's doc comment.

**Shader-name bookkeeping** (`shaders.dfy`, module `Shaders`). The
package-level maps `vertex_shaders`, `fragment_shaders`, `shader_progs` and
`warned_names` are fields of the class `ShaderRegistry`, and so is the
program last passed to `glUseProgram`. The class also records what the code
makes observable:
- the names warned about, in order;
- the uniform writes;
- the failures `InitShaders` reports;
- a counter that stands for OpenGL's id allocation. It starts at 1, because
  OpenGL never hands out id 0.

What the file system and OpenGL answer is an input (`GlOutcomes`):
- which paths can be read;
- which vertex sources and which fragment sources compile;
- which vertex/fragment path pairs link.

`LoadShader` is one pass of the `InitShaders` loop and `LoadAll` is the
whole loop. The methods `LoadOne` and `InitShaders` carry out those passes
on the fields and are proved equal to these functions. `AfterEnable` and
`AfterSetUniform` specify `EnableShader` and `SetUniformI`/`SetUniformF`.
`Replay` runs any sequence of those calls.

`warned_names` is a `map[string]bool` in Go. Only `true` is ever stored, and
a missing key reads as `false`, so the model uses a `set<string>`.

## Model

| member | source | states |
|---|---|---|
| `BasicAttacks.Construct` | game/actions/basic_attack.go:19-23 | Calling a constructor succeeds exactly when its captured name is registered. The action then carries that name and that name's registry entry; otherwise the result is DefinitionNotFound for the name. |
| `BasicAttacks.BuildMakers` | game/actions/basic_attack.go:16-25 | The makers map has exactly the registry's key set. The entry under n captured n itself, not the last loop value. |
| `BasicAttacks.MakersBindOwnDefinition` | game/actions/basic_attack.go:17-22 | Each maker of a registration constructs the action bound to its own name's definition, and two different names give actions with different names. |
| `BasicAttacks.StaleMakerUsesCurrentStore` | game/actions/basic_attack.go:19-22 | Makers built for one registry and called once the partition holds another bind to the entries of the current one: each still-registered name gets its new definition, and each dropped name fails with DefinitionNotFound. |
| `BasicAttacks.AttackStore.RegisterAttacks` | game/actions/basic_attack.go:11-26 | The partition afterwards holds exactly the loaded records, whatever it held before (replaced, not merged). The returned makers have the same key set, and each constructs the action bound to its own loaded record. |
| `BasicAttacks.AttackStore.constructor` | game/actions/basic_attack.go:12-14 | A freshly registered partition is empty. |
| `BasicAttacks.Readyable` | game/actions/basic_attack.go:46-48 | Always true; its properties are stated by RunIsStateless. |
| `BasicAttacks.Cost` | game/actions/basic_attack.go:49-51 | The definition's Ap; its properties are stated by RunIsStateless and InstantCompletion. |
| `BasicAttacks.Prep` | game/actions/basic_attack.go:52-54 | Always true, for every actor; its properties are stated by RunIsStateless. |
| `BasicAttacks.HandleInput` | game/actions/basic_attack.go:55-57 | Always true; its properties are stated by RunIsStateless. |
| `BasicAttacks.HandleOutput` | game/actions/basic_attack.go:58-59 | Returns the action unchanged; its properties are stated by RunIsStateless and CancelKeepsBinding. |
| `BasicAttacks.Cancel` | game/actions/basic_attack.go:60-61 | Returns the action unchanged; its properties are stated by RunIsStateless and CancelKeepsBinding. |
| `BasicAttacks.Maintain` | game/actions/basic_attack.go:62-65 | Complete for every elapsed time; its properties are stated by RunIsStateless and InstantCompletion. |
| `BasicAttacks.Interrupt` | game/actions/basic_attack.go:66-68 | Always true; its properties are stated by RunIsStateless. |
| `BasicAttacks.RunIsStateless` | game/actions/basic_attack.go:46-68 | After any sequence of lifecycle calls the action keeps its name and definition. Cost always answers the definition's Ap; Readyable, Prep, HandleInput and Interrupt always answer true; Maintain answers Complete for every dt. |
| `BasicAttacks.InstantCompletion` | game/actions/basic_attack.go:33-65 | Driven through Readyable, Prep, HandleInput, HandleOutput and Maintain, a basic attack completes on its first Maintain whatever its dt (0 included), charged its Ap once. With no tick it is still running. |
| `BasicAttacks.CancelKeepsBinding` | game/actions/basic_attack.go:58-61 | HandleOutput and Cancel leave a constructed action with the same name and definition. |
| `Shaders.LoadShader` | base/shaders.go:87-147 | One pass of the InitShaders loop body, as a function of the id maps, the definition and the OpenGL outcomes; LoadShaderContract and LoadShaderKeepsWellFormed state what it does. |
| `Shaders.LoadAll` | base/shaders.go:86-148 | The whole InitShaders loop, passes applied in the registry's order; LoadAllKeepsWellFormed, LoadAllProvenance and SameNameOverwrites state what it does. |
| `Shaders.LoadShaderContract` | base/shaders.go:88-147 | One loop pass commits all three entries or none. It succeeds exactly when both files read, each shader is known or compiles, and the pair links. A failure leaves the maps unchanged. A success adds the vertex path, the fragment path and the program, keyed by the definition's Name, and changes no other entry. A known path keeps its id and is never compiled again. New ids are fresh, made in the order vertex, fragment, program. An unreadable file stops the pass before any id is created. |
| `Shaders.LoadShaderCounter` | base/shaders.go:101-143 | The ids a pass uses up, on success and on every compile or link failure: one for each shader it had to create, plus one for the program once both shaders exist. A vertex compile failure uses exactly one, a fragment compile failure one more than the vertex shaders created, and a link failure as many as a success. A path already known never creates a shader. |
| `Shaders.CommitKeepsWellFormed` | base/shaders.go:145-147 | Committing a pass's three ids, each reused or fresh, keeps every id non-zero, below the counter, and used by at most one path or program. |
| `Shaders.LoadShaderKeepsWellFormed` | base/shaders.go:101-147 | One pass keeps the id maps well formed. |
| `Shaders.LoadAllKeepsWellFormed` | base/shaders.go:86-148 | The whole loop keeps the id maps well formed. No id stands for two paths, for two programs, or for both a shader and a program. |
| `Shaders.LoadAllProvenance` | base/shaders.go:86-148 | Entries are never removed during the loop and the counter never goes back. Every new program key is some definition's Name, and every new path is some definition's vertex or fragment path. |
| `Shaders.SameNameOverwrites` | base/shaders.go:88-147 | Two definitions with the same Name leave a single program entry. It holds the second, newer program, so the first program's id is lost. |
| `Shaders.AfterEnable` | base/shaders.go:35-46 | The current program becomes shader_progs[name] if present, else 0. A warning is logged exactly when the name is unknown, non-empty and not yet warned. The warned set grows by exactly the names warned, and nothing else changes. |
| `Shaders.AfterSetUniform` | base/shaders.go:48-74 | A known shader gets one uniform write on its program and no warning. An unknown shader, the empty name included, gets no write and a warning only the first time. Nothing else changes. |
| `Shaders.ApplyWarnsOnce` | base/shaders.go:33-74 | Any single call leaves the id maps alone, warns at most once, and only about a name that is unknown and not yet warned. That name joins the warned set, and EnableShader never warns about "". |
| `Shaders.WarnsAtMostOnce` | base/shaders.go:33-74 | Over any sequence of EnableShader/SetUniformI/SetUniformF calls the id maps never change and the warning log only grows. Each name is warned about at most once, and only if it was unknown and not already warned. The warned set, shared by all three functions, grows by exactly the names warned. |
| `Shaders.EnableNeverWarnsEmpty` | base/shaders.go:41-44 | A sequence of EnableShader calls never warns about the empty name. |
| `Shaders.ShaderRegistry.constructor` | base/shaders.go:29-33 | The initial state has empty maps, nothing warned, program 0 current and empty logs. |
| `Shaders.ShaderRegistry.EnableShader` | base/shaders.go:35-46 | The new state is AfterEnable of the old one. |
| `Shaders.ToGLint` | base/shaders.go:59 | The conversion `gl.Int(n)`: the result is a 32-bit signed value congruent to n modulo 2^32, and equal to n whenever n already fits. |
| `Shaders.ShaderRegistry.SetUniformI` | base/shaders.go:48-60 | The new state is AfterSetUniform of the old one, with the integer truncated to GLint as `gl.Int` does. |
| `Shaders.ShaderRegistry.SetUniformF` | base/shaders.go:62-74 | The new state is AfterSetUniform of the old one, with a float value. |
| `Shaders.ShaderRegistry.LoadOne` | base/shaders.go:87-147 | The loop body: read, create and compile unknown shaders, link, then commit. Each early exit stands for one of the source's `continue`s. Maps and counter become LoadShader's result, and its failure, if any, is appended to the error log. |
| `Shaders.ShaderRegistry.InitShaders` | base/shaders.go:76-150 | The four maps are emptied and the shaders loaded in the registry's order. The id maps become LoadAll from empty maps, so they do not depend on the earlier maps. Only the id counter carries over. The errors of the passes are logged, warned_names ends empty, and the ids stay well formed. |

## Left out

- OpenGL calls: creating, compiling and linking shaders, uploading sources, uniform locations, `unsafe` pointer casts. They become the `GlOutcomes` input and the id counter. Ids are unbounded naturals, not `uint32`.
- Whether a compile succeeds is modelled as a property of the path alone, and link success as a property of the vertex/fragment path pair.
- A uniform write is recorded against the program whose location was looked up. OpenGL applies `glUniform*` to the currently bound program, and that GPU behaviour is not modelled.
- The `float32` value of `SetUniformF` is not modelled: only the fact that a float was written is recorded.
- The text of the `Warn()` and `Error()` messages.
- `render.Queue`: `InitShaders` runs its body at once instead of deferring it to the render thread, which is concurrency.
- `ioutil.ReadFile`, `GetDataDir` and the registry loaders (`RegisterAllObjectsInDir`, `GetAllNamesInRegistry`, `GetObject`). These are file I/O and reflection-based JSON loading. Their results are inputs: the loaded records, and the names with the map from name to `shaderDef`.
- `base.GetObject`'s own behaviour is not part of this model. The constructor's lookup is modelled as a map lookup that fails with `DefinitionNotFound` when the name is absent.
- Calls made before the first `InitShaders`: the Go maps are still nil then, and a first warning would panic on the nil-map write. The model starts from empty maps.
- An empty shader file: `&vdata[0]` would panic when that shader must be compiled. The model treats every readable file as having content.
- `init()`: the `gob.Register` and `game.RegisterActionMakers` hook-ups (serialization and global registration).
- The `*BasicAttackDef` pointer a `BasicAttack` embeds: the model holds the definition by value, so two actions sharing one registry record is not represented. Nothing in the source writes through that pointer, so no behaviour depends on the sharing.
- The contents of `status.Kind` (kept as an uninterpreted string) and of `*game.Entity`, which a basic attack never reads.
- sound/silent_manager.go: every function in it is an empty stub.
- `Drive` is not code of this repository. It is the smallest game loop that makes the "instant" comment statable; the game's real driver is not part of this model.
