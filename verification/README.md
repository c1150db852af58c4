# tflog slog handler, modelled in Dafny

`TFLogSlogHandler` (main.go) is a Go `log/slog` handler that forwards log
records to the terraform-plugin-log `tflog` backend. `tflog` wants one nested
`map[string]any` per call and routes output by a dotted subsystem name, so the
handler does three things, all modelled here:

- **Attribute flattening** (`addAttrToMap`, `addAttrsToMap`). An ordered,
  possibly nested stream of slog attributes becomes one nested field map.
  First the handler's group path is walked, creating nested maps where they
  are missing. Then the attribute is applied:
  - the zero `slog.Attr{}` is dropped, before the walk;
  - a group with no children sets no key;
  - a group with an empty key is inlined at the current level;
  - a named group becomes a fresh nested map under its key;
  - a scalar overwrites its key, so the last write wins.
- **Handler state and derivation** (`NewSlogHandler`, `WithAttrs`,
  `WithGroup`, `renderAdditionalFields`). A handler holds bound `fields` and a
  list of entered `groups`. Deriving copies the top-level fields and either
  flattens new attributes into them under the groups or appends a group name.
  A record's map is the bound fields with the record's attributes flattened
  on top.
- **Dispatch** (`Handle`, `Enabled`). The subsystem is the group names joined
  with `.`. An empty subsystem selects `tflog.Debug/Info/Warn/Error`, any
  other selects `tflog.SubsystemDebug/...`. Levels other than the four named
  ones select Info. `Enabled` is true for every level.

Files:

- `slog.dfy` (module `Slog`): attributes, values, levels and records as the
  handler sees them.
- `field_maps.dfy` (module `FieldMaps`): the nested field map as a value; the
  walk down a group path (`Scope`) and its write-back (`Graft`).
- `flatten.dfy` (module `Flatten`): flattening as functions (`Put`, `Apply`,
  `ApplyAll`, `AddAttr`, `AddAttrs`) with lemmas about them. The methods
  `AddAttrToMap`, `AddAttrsToMap` and `CopyFields` follow the Go loops and
  are proved equal to those functions.
- `strings.dfy` (module `Strings`): `strings.Join`.
- `handler.dfy` (module `Handler`): the `TFLogSlogHandler` class, the level
  switch and the tflog call that `Handle` would make.

The type assertion `current[group].(map[string]any)` (main.go:126) panics
when an entry on the group path is not a nested map. For example,
`WithAttrs(a="x")` followed by `WithGroup("a")` and then `WithAttrs(b="y")`
panics. The model returns `Panic` there, so `WithAttrs`, `Handle` and
`renderAdditionalFields` return a `Result`. So handling can fail, and
deriving a handler copies only the top level of the field map.

## Model

| member | source | states |
|---|---|---|
| FieldMaps.Step | main.go:123-126 | one step of the walk: an absent group gets an empty map, an existing nested map is reused, and it panics exactly when the entry is not a nested map |
| FieldMaps.Scope | main.go:121-127 | the walk over an empty group path stays at the top-level map |
| FieldMaps.Graft | main.go:121-127 | writing through the walked map changes the outer map only under the first group name; that entry is a nested map and the other keys keep their values |
| FieldMaps.ScopeGraft | main.go:121-127 | walking the path after a write-back reaches exactly the map that was written |
| FieldMaps.GraftGraft | main.go:121-127 | a second write at the same path replaces the first |
| FieldMaps.ScopeSnoc | main.go:122-127 | walking one more group name is one more step of the loop; a panic on a prefix stays a panic |
| FieldMaps.GraftScopeExisting | main.go:123-126 | where every map on the path exists, the walk reuses them and changes nothing |
| FieldMaps.GraftMakesPath | main.go:123-125 | after a write every group on the path names a nested map |
| Flatten.Put | main.go:129-143 | the write at the walked map never removes a key, and a named attribute touches only its own key; ApplyFrame, NamedGroupReplaces and SpliceInline give the rest of its meaning |
| Flatten.ApplyAll | main.go:135-139 | `addAttrsToMap(..., nil)` for group children never removes a key; ApplyAllFrame and LastOccurrenceWins state which keys it adds and which value each ends with |
| Flatten.AddAttrs | main.go:108-112 | flattening that does not panic never removes a key; AddAttrsLands, AddAttrsAppend and LastAttrWins state where each write lands, the ordering, and that the last write wins |
| Flatten.Apply | main.go:115-117 | the zero attribute leaves the map unchanged |
| Flatten.AddAttr | main.go:114-144 | the zero attribute leaves the map unchanged even where the walk would panic; any other attribute panics exactly when the walk does |
| Flatten.ApplyAllAppend | main.go:108-111 | attributes are applied in order: flattening `xs + ys` is flattening `xs`, then `ys` |
| Flatten.AddAttrsAppend | main.go:108-111 | the same under a group path, where a panic in `xs` ends the whole flattening |
| Flatten.ApplyAllZero | main.go:115-117 | a list of zero attributes changes nothing |
| Flatten.AddAttrsLands | main.go:108-144 | under a group path, flattening is flattening with no path into the map at `fields[g1]...[gn]`, written back; the path is walked only if some attribute is non-zero, and it panics exactly when that walk does |
| Flatten.AddAttrsNoPath | main.go:134-141 | with no group path (the `nil` passed for group children) flattening never panics |
| Flatten.ScalarLands | main.go:121-143 | a scalar attribute lands at `fields[g1]...[gn][key]`, and the rest of that nested map is kept |
| Flatten.EmptyGroupMakesPath | main.go:121-133 | an empty group sets no key, but the maps along the group path are created and keep their contents |
| Flatten.LastAttrWins | main.go:97-105 | a scalar attribute applied last decides its key under the group path, over bound fields and earlier attributes |
| Flatten.AddAttrsTopLevelFrame | main.go:121-127 | under a non-empty group path only the first group name's top-level entry changes |
| Flatten.ApplyFrame | main.go:129-143 | one attribute adds exactly the keys it writes, and every other key keeps its value |
| Flatten.ApplyAllFrame | main.go:108-143 | a list of attributes adds exactly the keys they write, and every other key keeps its value |
| Flatten.SpliceInline | main.go:134-137 | an anonymous group, empty or not, is the same as its children written inline at that place |
| Flatten.NamedGroupReplaces | main.go:138-141 | a named non-empty group installs a map built from its children alone, whatever was under the key before (never merged) |
| Flatten.LastOccurrenceWins | main.go:108-143 | in a list of scalar attributes every key ends with the value of its last occurrence |
| Flatten.FlattenExamples | main.go:129-143 | inline `{"": {a:1, b:2}}` gives `{a:1, b:2}`; `{g: {}}` gives `{}`; `{g: {a:1}}` nests; a zero attribute before `k=v` gives `{k:v}` |
| Flatten.CopyFields | main.go:71-73 | the copy loop yields a map equal to its source |
| Flatten.AddAttrToMap | main.go:114-144 | the loop over the group path, then the write, equal to `AddAttr` |
| Flatten.AddAttrsToMap | main.go:108-112 | the loop over the attributes, stopping at a panic, equal to `AddAttrs` |
| Strings.Join | main.go:32 | no names give `""` and one name gives itself; JoinSnoc and JoinEmptyIff state the rest |
| Strings.JoinEmptyIff | main.go:32 | with separator `.` the joined name is empty only for no names or the single name `""` |
| Strings.JoinSnoc | main.go:32 | joining one more name appends `.` and the name |
| Handler.SeverityOf | main.go:35-59 | Debug, Warn and Error levels select their own function; every other level, Info included, selects Info |
| Handler.Dispatch | main.go:34-60 | the subsystem functions are chosen exactly when the subsystem is non-empty; the message and the map are passed unchanged |
| Handler.TFLogSlogHandler.constructor | main.go:20-24 | a new handler has no fields and no groups |
| Handler.TFLogSlogHandler.Enabled | main.go:26-28 | every level is enabled |
| Handler.TFLogSlogHandler.RenderAdditionalFields | main.go:94-106 | the record's map is the bound fields with the record's attributes flattened under the groups |
| Handler.TFLogSlogHandler.Handle | main.go:30-62 | no error unless rendering panics; the call is chosen from the joined groups and the level; a subsystem call exactly when a group was entered |
| Handler.TFLogSlogHandler.WithAttrs | main.go:64-76 | a new handler with the same groups, and the parent's fields with the attributes flattened under those groups; it panics exactly when flattening does |
| Handler.TFLogSlogHandler.WithGroup | main.go:78-92 | the same handler for `""`; otherwise a new one with the name appended and equal fields; no group name is ever empty |
| Handler.SubsystemEmptyIffNoGroups | main.go:32-34 | because no group name is empty, the subsystem is empty exactly when no group was entered |
| Handler.WithGroupSubsystem | main.go:86 | entering a group extends the subsystem by `.` and the name, or starts it |
| Handler.NestedGroupsExample | main.go:78-105 | `WithGroup("a")`, `WithGroup("b")`, `WithAttrs(k=1)`, then an Info record: `SubsystemInfo("a.b", ...)` with `{a: {b: {k: 1}}}` |
| Handler.BindDoesNotReachParent | main.go:64-76 | after `WithAttrs(x=1)` records on the parent carry no `x`, and records on the child carry `x=1` |

## Left out

- Concurrency: the `sync.Mutex` (main.go:15, 65-66, 82-83, 95-96) only guards shared state; the model is single-threaded.
- The tflog backend: `Handle` returns a `Call` naming the function, subsystem, message and map instead of calling tflog; output is not modelled.
- `context.Context` is passed through untouched and is not modelled.
- Scalars whose dynamic type is `map[string]any` (for example `slog.Any("a", map[string]any{...})`) are not modelled: Go stores them as that map at main.go:143, and a later walk through their key reuses them instead of panicking.
- `Value.Resolve` is the identity: no value is a lazy `LogValuer`. Scalars are opaque (`Nil`, strings, integers, booleans); `Attr.Equal` is structural equality.
- Go map aliasing: the copies at main.go:71-73, 88-90 and 98-100 are shallow, so nested group maps are shared between a handler, the handlers derived from it and each record's map. The model treats maps as values, so it does not capture two effects of that sharing. Both arise only when the handler's fields already hold a nested map under `groups[0]` (for example after a `WithAttrs` under that group); otherwise main.go:124 creates a fresh map in the copy and nothing is shared. First, `WithAttrs` under such a group path also writes into the parent's nested map. Second, `Handle` under such a group path writes the record's attributes into the handler's own nested map, so they reappear in later records. In the model a handler never changes after it is created.
- Handler.TFLogSlogHandler.Handle: does not state that, when the handler's fields already hold a nested map under `groups[0]`, the record's attributes are written into that shared map and leak into later records; the model's handler is unchanged by `Handle`.
- Handler.TFLogSlogHandler.WithAttrs: states independence of the parent only as the model sees it (no frame at all); in Go, when the parent already holds a nested map under `groups[0]`, that shared map is modified.
- A panic is modelled as the result `Panic`; its unwinding and any `recover` by a caller are not modelled, nor are writes made before the panic (they reach other handlers only through the sharing above).
- `record.NumAttrs()` (main.go:97) is only a capacity hint for `make` and is not modelled.
