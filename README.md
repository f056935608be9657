# deathframe core, modelled in Dafny

This project models the core of deathframe, a game framework written in Rust on
top of the amethyst engine. It covers these parts, and proves what each one
guarantees:

- **`SpriteSheetHandles`** (`sprite_sheet.dfy`, `sprite_sheet_properties.dfy`).
  This is a cache from a logical name to a sprite-sheet handle.
  - `get` strips a path down to a lookup key.
  - `load` does these steps in order:
    1. checks that the image file exists;
    2. checks the path against the case-insensitive pattern `.+\.(png|jpe?g)\z`;
    3. derives a name and a `.ron` descriptor path from the path;
    4. checks that the descriptor exists;
    5. selects the texture format from the lower-cased extension (this step
       cannot fail for a path the pattern accepts);
    6. requests the texture and then the sprite sheet from the asset loader;
    7. stores the sheet's handle under the derived name.
  - `get_or_load` looks up the path, loads it if it is missing, and looks it up again.
  - `has_finished_loading_all` asks whether every stored handle has resolved.
- **The string work behind those operations** (`path_text.dfy`). This covers:
  - `split('/').last()` and `split('.').next()`;
  - `str::replace`, which replaces every non-overlapping occurrence, scanning left to right;
  - `Path::file_name` and `Path::extension` for '/'-separated paths;
  - ASCII lower-casing.
- **`PlayAnimationsSystem::run`** (`play_animations.dfy`). This is an in-place
  pass over an array of entity records. Each entity that has an `Animation` and a
  `SpriteRender` and is loaded gets one `update`. Its `sprite_number` is assigned
  only when the current sprite exists and differs from the one shown. The method
  also counts the updates and the writes.
- **The load-state components `Loadable` and `Loaded`** (`load_state.dfy`). These
  are the padding builder, the `Loaded` presence marker and the loaded check the
  animation system filters on.
- **`CollisionTag::collides_with`** (`collision_tag.dfy`): the unit implementation
  and the equality-based implementation. The equality-based one is the blanket
  implementation compiled only with the crate's `debug` feature; a default build
  has only the unit implementation.
- **`Axis`** (`axis.dfy`): `is_x`, `is_y`, `for_each` and `Display`.
- **`Parallax` and `ParallaxBuilder`** (`parallax.dfy`): the defaults, the
  setters and `build`.

Every abort of `load` and `get_or_load` is returned as a `LoadError` value, in
place of the panics the Rust code raises. An abort inside `load` comes before any
request, so nothing is stored and nothing requested. The one abort of
`get_or_load` after its load, `MissingAfterLoad`, comes after `load` has requested
the texture and the sheet and stored the sheet's handle. That stored entry and
those two requests remain.
The file system enters as the set of paths that are files. The asset loader is a
small class that records each request and answers it with a fresh handle. The
asset storage's answer enters as the set of resolved handles.

Two behaviours of the code differ from what its documentation suggests, and the
model follows the code:

- **Base names with a '.'.** `load` stores a sheet under the file name with every
  `"." + ext` removed, so "hero.v2.png" is stored as "hero.v2". `get` cuts at the
  first '.', so it looks that sheet up as "hero".
  - When no entry is stored under the stem, `get_or_load` on such a path loads it
    and then finds nothing. That is `MissingAfterLoad`, the `unwrap` panic at
    `get_or_load`'s last line. A second call loads it again.
  - When an entry is stored under the stem, for example from "hero.png",
    `get_or_load` on "hero.v2.png" returns that other sheet and loads nothing
    (`DottedNameReturnsStemEntry`).
  - `GetOrLoadFindsIff` states exactly when the lookup after a load succeeds.
- **Directories named like the extension.** The descriptor path replaces
  `"." + ext` everywhere in the path, directories included. The descriptor of
  "sprites.png/hero.png" is looked for at "sprites.ron/hero.ron".

The code's pattern admits only PNG and JPEG files. Its BMP and TGA format arms, and
its unsupported-format arm, are therefore never reached (`LoadOnlyPngOrJpg`). A BMP,
TGA or other file is rejected by the pattern check, not by the format check. Calling
`get_or_load` twice with the same path requests at most one load when the first
call succeeds. It requests two loads when the first call hits the base-name
mismatch above.

## Model

| member | source | states |
|---|---|---|
| PathText.LastIndex | src/handles/sprite_sheet.rs:41-43 | the position of the last separator before a bound, or -1; no separator lies after it |
| PathText.FirstIndex | src/handles/sprite_sheet.rs:45-46 | the position of the first separator, or the length when there is none; none lies before it |
| PathText.ReplaceAllSplits | src/handles/sprite_sheet.rs:86-88 | `replace` rewrites every occurrence, not just one: the text up to the first occurrence is kept, the occurrence becomes the replacement, and the rest is rewritten on its own |
| PathText.ReplaceAllFinal | src/handles/sprite_sheet.rs:86-88 | an occurrence that ends the text, with none before it, is replaced and the text before it kept |
| PathText.ReplaceAllWithoutOccurrence | src/handles/sprite_sheet.rs:86-88 | text without an occurrence comes back unchanged |
| PathText.ReplaceAll | src/handles/sprite_sheet.rs:86-88 | replacing the pattern by itself changes nothing, and a replacement as long as the pattern keeps the length |
| PathText.Lower | src/handles/sprite_sheet.rs:98 | lower-casing keeps the length and maps each character on its own |
| PathText.FileName | src/handles/sprite_sheet.rs:78-83 | a file name, when there is one, is neither empty nor "." nor ".." |
| PathText.FileNameOfLastPiece | src/handles/sprite_sheet.rs:78-83 | a path whose last '/'-piece is non-empty and does not end in '.' has that piece as its file name |
| PathText.Extension | src/handles/sprite_sheet.rs:75-76 | an extension, when there is one, is a suffix of the file name without '.', preceded by '.', with at least one character before that '.' |
| SpriteSheets.LookupKey | src/handles/sprite_sheet.rs:40-47 | the key `get` looks up never contains '/' or '.' |
| SpriteSheets.MatchesImagePattern | src/handles/sprite_sheet.rs:69-74 | a matching path has at least five characters and ends in 'g' or 'G', the last letter of every accepted extension |
| SpriteSheets.ImageFormatOf | src/handles/sprite_sheet.rs:98-107 | the format is PNG, JPEG, BMP or TGA exactly when the lower-cased extension names it; any other extension has none |
| SpriteSheets.PrepareLoad | src/handles/sprite_sheet.rs:57-107 | a missing image fails first and a pattern mismatch next; a plan exists only for an existing image matching the pattern whose descriptor exists; a descriptor failure names a missing path |
| SpriteSheets.AssetLoader.Load | src/handles/sprite_sheet.rs:114-130 | each request is recorded in order and answered with a handle no earlier request received |
| SpriteSheets.SpriteSheetHandles.constructor | src/handles/sprite_sheet.rs:167-173 | the cache starts empty |
| SpriteSheets.SpriteSheetHandles.Insert | src/handles/sprite_sheet.rs:29-31 | the name maps to the handle, any old entry is overwritten, and every lookup whose key is another name answers as before |
| SpriteSheets.SpriteSheetHandles.Get | src/handles/sprite_sheet.rs:36-48 | an entry is found exactly when the path's lookup key is stored, and it is the handle stored under that key |
| SpriteSheets.SpriteSheetHandles.Load | src/handles/sprite_sheet.rs:53-137 | on any failed check the cache and the loader are untouched; otherwise the texture and then the sheet over it are requested, and only the derived name is set, to the sheet's handle |
| SpriteSheets.SpriteSheetHandles.Fetch | src/handles/sprite_sheet.rs:109-133 | the texture and then the sheet over the texture's handle are requested, in that order, and the plan's name alone is set to the sheet's handle |
| SpriteSheets.SpriteSheetHandles.GetOrLoad | src/handles/sprite_sheet.rs:141-156 | a cached handle is returned with nothing changed; a failed load changes nothing; after a load the handle is returned exactly when the stored name equals the lookup key, otherwise the lookup aborts |
| SpriteSheets.SpriteSheetHandles.HasFinishedLoadingAll | src/handles/sprite_sheet.rs:159-164 | true exactly when every stored handle has resolved |
| SpriteSheetProperties.LookupKeyParts | src/handles/sprite_sheet.rs:41-47 | the key of directories, a base without '/' or '.', and a '.'-suffix is the base |
| SpriteSheetProperties.LookupKeyOfPath | src/handles/sprite_sheet.rs:41-48 | "dir/hero.ext", "hero.ext" and "hero" all look up "hero" |
| SpriteSheetProperties.LookupKeyIdempotent | src/handles/sprite_sheet.rs:41-47 | a key looks up itself |
| SpriteSheetProperties.AcceptedHasDotSuffix | src/handles/sprite_sheet.rs:69-74 | a path the pattern accepts ends in '.' and letters, with something before the '.' |
| SpriteSheetProperties.FileNameOfDotSuffix | src/handles/sprite_sheet.rs:78-83 | such a path's file name is its last '/'-piece, which holds the whole suffix |
| SpriteSheetProperties.ExtensionOfDotSuffix | src/handles/sprite_sheet.rs:75-76 | the extension of such a file name is the suffix, unless the '.' is its first character |
| SpriteSheetProperties.PatternFixesExtension | src/handles/sprite_sheet.rs:74-83 | for an accepted path the file name and the extension are the ones the pattern matched, except for a hidden file |
| SpriteSheetProperties.AcceptedPathExtension | src/handles/sprite_sheet.rs:69-79 | an accepted path's file name is its last '/'-piece, and its extension, when it has one, lower-cases to "png", "jpg" or "jpeg" |
| SpriteSheetProperties.LoadOnlyPngOrJpg | src/handles/sprite_sheet.rs:69-107 | every successful load is PNG or JPEG, and the unsupported-format failure never happens |
| SpriteSheetProperties.LoadRequiresPattern | src/handles/sprite_sheet.rs:134-136 | a path the pattern rejects is never loaded; it fails as missing or as a mismatch |
| SpriteSheetProperties.ImagePathMatches | src/handles/sprite_sheet.rs:69-74 | an image file with an accepted extension matches the pattern in any directory |
| SpriteSheetProperties.ImagePathFileName | src/handles/sprite_sheet.rs:78-83 | the last '/'-piece of an image path is the image file name |
| SpriteSheetProperties.ImagePathPlan | src/handles/sprite_sheet.rs:75-107 | an existing image file is stored under its base name, with PNG or JPEG by extension, once the path with every "."+ext replaced by ".ron" exists |
| SpriteSheetProperties.PlanOfImagePath | src/handles/sprite_sheet.rs:57-107 | for an image path whose directories do not contain "."+ext, the descriptor is the ".ron" file beside the image, and the three outcomes are missing image, missing descriptor or success |
| SpriteSheetProperties.DescriptorPathRewritesDirectories | src/handles/sprite_sheet.rs:87-96 | the descriptor of "d.ext/hero.ext" is looked for at "d.ron/hero.ron" |
| SpriteSheetProperties.LookupKeyOfImagePath | src/handles/sprite_sheet.rs:36-48 | an image path looks up its base name exactly when the base name has no '.' |
| SpriteSheetProperties.GetOrLoadFindsIff | src/handles/sprite_sheet.rs:149-155 | with both files present the load succeeds, and the lookup after it finds the new entry exactly when the base name has no '.' |
| SpriteSheetProperties.DottedNameMissesItsEntry | src/handles/sprite_sheet.rs:149-155 | "stem.tag.ext" is stored under "stem.tag" but looked up as "stem" |
| SpriteSheetProperties.EmptyCacheHasFinished | src/handles/sprite_sheet.rs:159-173 | the empty cache has finished loading, whatever has resolved |
| SpriteSheetProperties.AllResolvedAfterInsert | src/handles/sprite_sheet.rs:159-164 | after an insert, all have finished exactly when the new handle has and every other entry has |
| SpriteSheetProperties.AllResolvedMonotone | src/handles/sprite_sheet.rs:159-164 | resolving more handles never makes a finished cache unfinished |
| SpriteSheetProperties.DottedNameReturnsStemEntry | src/handles/sprite_sheet.rs:149-151 | with an entry stored under "stem", `get_or_load` on "stem.tag.ext" returns that entry, requests nothing and leaves the cache as it was |
| SpriteSheetProperties.GetOrLoadTwice | src/handles/sprite_sheet.rs:141-156 | after a successful call a second call with the same path returns the same handle, and the two calls together request at most one load; after a name mismatch the second call loads again and fails the same way |
| LoadState.DefaultLoadable | deathframe_core/src/components/loadable.rs:5-10 | the default has no padding on either axis |
| LoadState.WithPadding | deathframe_core/src/components/loadable.rs:13-16 | the result's padding is exactly the given one |
| LoadState.WithPaddingLastWins | deathframe_core/src/components/loadable.rs:13-16 | padding set twice keeps only the second |
| LoadState.WithPaddingForgets | deathframe_core/src/components/loadable.rs:13-16 | the result does not depend on the loadable it started from |
| LoadState.PaddingAxesIndependent | deathframe_core/src/components/loadable.rs:9 | either axis can be padded without the other |
| LoadState.AttachLoaded | deathframe_core/src/components/loaded.rs:6-10 | attaching the marker sets the flag and keeps `Loadable` |
| LoadState.DetachLoaded | deathframe_core/src/components/loaded.rs:6-10 | removing the marker clears the flag and keeps `Loadable` |
| LoadState.AttachDetachLaws | deathframe_core/src/components/loaded.rs:8-10 | attaching twice is attaching once, removing twice is removing once, and removing undoes attaching |
| LoadState.IsEntityLoaded | deathframe_animation/src/systems/play_animations.rs:29-31 | an entity with `Loaded` counts as loaded, and one that does not count as loaded has `Loadable` |
| LoadState.LoadedGating | deathframe_core/src/components/loadable.rs:3-4 | with `Loadable`, an entity is loaded exactly when `Loaded` is present; without it, the marker makes no difference |
| PlayAnimations.Tick | deathframe_animation/src/systems/play_animations.rs:26-38 | an entity outside the join or the filter is unchanged; a visited one gets its animation updated once, keeps its sheet and load state, shows the current sprite when there is one, and keeps its render otherwise |
| PlayAnimations.TickAll | deathframe_animation/src/systems/play_animations.rs:26-39 | each entity is ticked on its own, and the number of entities is kept |
| PlayAnimations.CountVisited | deathframe_animation/src/systems/play_animations.rs:26-33 | no more updates than entities |
| PlayAnimations.Run | deathframe_animation/src/systems/play_animations.rs:16-40 | the array afterwards is every entity ticked in place, with one update per visited entity and one write per changed sprite |
| PlayAnimations.UnloadedUntouched | deathframe_animation/src/systems/play_animations.rs:29-31 | an entity that is not loaded is neither updated nor written |
| PlayAnimations.IncompleteUntouched | deathframe_animation/src/systems/play_animations.rs:26-28 | an entity missing the animation or the render is not visited |
| PlayAnimations.WritesIffChanged | deathframe_animation/src/systems/play_animations.rs:34-37 | a write happens exactly when the sprite shown changes |
| PlayAnimations.SteadySpriteWritesNothing | deathframe_animation/src/systems/play_animations.rs:34-37 | when the animation stays on the same sprite, a second pass writes nothing |
| PlayAnimations.CountWrites | deathframe_animation/src/systems/play_animations.rs:33-37 | no more writes than updates |
| PlayAnimations.OrderIndependent | deathframe_animation/src/systems/play_animations.rs:26-39 | processing the entities in any order or selection gives each the same outcome |
| PlayAnimations.CountsPrepend | deathframe_animation/src/systems/play_animations.rs:26-39 | an entity put in front adds only its own update and write to the counts |
| PlayAnimations.CountsRotate | deathframe_animation/src/systems/play_animations.rs:26-39 | moving an entity from the back to the front changes neither count |
| CollisionTags.UnitCollidesWith | deathframe_physics/src/collision/tag.rs:10-14 | unit tags always collide |
| CollisionTags.EqualCollidesWith | deathframe_physics/src/collision/tag.rs:17-25 | comparable tags collide exactly when they are equal |
| CollisionTags.UnitRelationLaws | deathframe_physics/src/collision/tag.rs:10-14 | the unit relation is reflexive and symmetric |
| CollisionTags.EqualRelationLaws | deathframe_physics/src/collision/tag.rs:22-24 | the equality relation is reflexive and symmetric |
| CollisionTags.CustomRelationMayBeAsymmetric | deathframe_physics/src/collision/tag.rs:6-8 | the trait admits a relation that is not symmetric |
| Geo.IsX | deathframe_core/src/geo/axis.rs:23-25 | true exactly for `X` |
| Geo.IsY | deathframe_core/src/geo/axis.rs:28-30 | true exactly for `Y` |
| Geo.ExactlyOneAxis | deathframe_core/src/geo/axis.rs:6-30 | exactly one of `is_x` and `is_y` holds, and `X` differs from `Y` |
| Geo.ForEach | deathframe_core/src/geo/axis.rs:14-20 | `for_each` is the fold over `X` then `Y` |
| Geo.ForEachCallsTwice | deathframe_core/src/geo/axis.rs:14-20 | a recording closure sees `X` and then `Y`, once each |
| Geo.Display | deathframe_core/src/geo/axis.rs:33-40 | `X` displays as "x" and `Y` as "y", one character each |
| Geo.DisplayInjective | deathframe_core/src/geo/axis.rs:33-40 | different axes display differently |
| Parallaxes.DefaultParallax | src/components/parallax.rs:31-40 | offset (0, 0), speed multiplier (0.5, 0.5), following nothing, anchored at the middle |
| Parallaxes.DefaultBuilder | src/components/parallax.rs:86-100 | the builder starts with the default parallax's fields |
| Parallaxes.NewParallax | src/components/parallax.rs:22-24 | `new` hands out the default builder |
| Parallaxes.SetOffset | src/components/parallax.rs:52-55 | sets the offset and no other field |
| Parallaxes.SetSpeedMult | src/components/parallax.rs:58-61 | sets the multiplier, whatever its value, and no other field |
| Parallaxes.SetFollow | src/components/parallax.rs:64-67 | follows the given entity and changes no other field |
| Parallaxes.SetFollowAnchor | src/components/parallax.rs:70-73 | sets the anchor and no other field |
| Parallaxes.Build | src/components/parallax.rs:76-83 | every builder field is carried over unchanged |
| Parallaxes.DefaultBuildsDefault | src/components/parallax.rs:76-100 | building a fresh builder gives the default parallax |
| Parallaxes.SettersLastWriteWins | src/components/parallax.rs:52-73 | a setter called twice keeps the second value |
| Parallaxes.SettersCommute | src/components/parallax.rs:52-73 | setters of different fields can be called in either order |
| Parallaxes.BuildAfterSetters | src/components/parallax.rs:52-83 | a built parallax holds exactly what was set, over the defaults |

## Left out

- Panics: every panic and `expect` of `load` and `get_or_load` is a `LoadError` value. Panic message text is not modelled.
- The asset loader, the asset storage and `world.read_resource`:
  - the loader is the `AssetLoader` class, and a handle is the index of the request that produced it;
  - whether a handle has resolved is the `resolved` set passed in;
  - asynchronous resolution is not modelled.
- `TextureMetadata` and the `()` progress arguments of the loader are not modelled.
- `Path::is_file` is the `files` set passed in.
- Paths are '/'-separated text. Windows separators and prefixes are not modelled.
- Non-UTF-8 paths, and the `to_str().unwrap()` calls that would panic on them, are not modelled.
- The `regex` crate: the pattern `.+\.(png|jpe?g)\z` with case folding is stated directly as a predicate. Case folding is ASCII-only, which is exact for the letters the pattern names.
- PathText.Lower: lower-cases ASCII letters only, unlike `to_lowercase`. This changes nothing for the extensions the pattern admits.
- PathText.ReplaceAll: requires a non-empty pattern. The pattern `load` passes always starts with '.', so the empty pattern of `str::replace` never arises.
- `Animation::update` and `Animation::current_sprite_id` are function parameters, because their bodies are not part of this model. Frame timing, looping and holding are not modelled.
- LoadState.IsEntityLoaded: the body of `is_entity_loaded` is not part of this model. Treating an entity without `Loadable` as loaded is an assumption, read from the documentation of `Loadable` and `Loaded`.
- ECS joins, storages, `Entities` and system scheduling: the world is an array of entity records, visited in index order.
- The `Send + Sync + Clone` bounds are not modelled.
- CollisionTags.EqualCollidesWith: tag equality is Dafny's `==`, which is always an equivalence. A tag type whose `PartialEq` is not reflexive, such as one holding an `f32` NaN, is not covered.
- CollisionTags.EqualRelationLaws: reflexivity holds because the model's `==` is reflexive. For a `PartialEq` that is not reflexive, `collides_with` of a tag with itself can be false.
- With the `debug` feature, the blanket `CollisionTag` impl would overlap the unit impl. The two are modelled as separate tag types, not as one trait resolution.
- `f32` paddings and vector components are `real`, since they are only stored. Entity ids (`Index`, a `u32`) are `nat`, and no overflow arises because nothing computes with them.
- Anchor variants other than `Middle` are told apart by number only.
- Serde and other derives, `Component` storages and `fmt::Formatter` plumbing are not modelled. `Display` gives only the two strings.
- `Loaded`'s `NullStorage` is a boolean flag on the entity record.
