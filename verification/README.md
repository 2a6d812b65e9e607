# fontParts `BaseLayer` in Dafny

A model of the layer base class of fontParts
(`Lib/fontParts/objects/base/layer.py`). The class does not store anything
itself. It validates what callers pass in and forwards the real work to hooks
that each font editor implements. This model covers four parts of it:

- the set-once weak reference to the parent font (`font`, `getParent`);
- the guarded rename (`name` setter): renaming to the current name does
  nothing, a validated name that another layer of the font already has is
  refused, and clearing the name skips every check;
- the `None`-transparent, validated `name` and `color` getters and the
  validating `color` setter;
- the default glyph-container behaviour: `len`, membership (`in`, `has_key`),
  `layer[name]` lookup and the default iteration.

The editor hooks (`_get_name`, `_set_name`, `_get_color`, `_set_color`,
`_keys`, `_getItem`) are a plain store: the fields of the immutable `Layer`
record. The item hook returns `Glyph(name)`. Every accessor is a pure function
that returns either its value or the error the Python code raises, as a
`Result`. The validators `validateLayerName`, `validateColor` and
`validateGlyphName` are not defined here. They are arbitrary total functions
that either return a normalised value or fail, bundled in `Validators`. Some
properties hold only for validators that are *stable*, meaning that
re-validating a validated value returns it unchanged (`LayerNameStable`,
`ColorStable`, `GlyphNameStable`). Those lemmas take stability as a
precondition.

Modules:

- `Wrappers` (wrappers.dfy): `Option` and `Result`.
- `Validators` (validators.dfy): the validator bundle, the `Color` wrapper and
  the stability predicates.
- `Layer` (layer.dfy): the record, the error kinds and
  every accessor. `Keys` (`keys()`, layer.py:191-196) passes the keys hook
  through unchanged and `Len` (the default `_len`, layer.py:146-152) is the
  number of keys; both are plain definitions without contracts of their own,
  and what they mean is stated by `LengthZeroIffNoMembers` and `Iterate`.
- `LayerIteration` (iteration.dfy): the default iteration, as a loop over one
  key snapshot (`Iterate`, `Walk`), plus a recursive reference definition of
  it (`RunOver`).
- `LayerProperties` (layer_properties.dfy): lemmas that relate several calls.

Points of the code worth noting:

- Iteration takes ONE snapshot of `keys()` and walks it by dropping the head
  (layer.py:166-170). `Iterate` walks `Keys(l)` once, and its contract is
  stated against that snapshot.
- The rename compares the new value with the validated `name` getter
  (layer.py:64). If the stored name fails validation, the rename therefore
  fails before anything else happens. `SetName` models this.
- `layer[name]` validates the glyph name, then tests `name not in self`, which
  validates it a second time (layer.py:176-177, 210). `GetItem` calls
  `Contains` on the already validated name. Membership and lookup agree for
  every stable validator (`MembershipAgreesWithLookup`).
- A weak reference whose font has been destroyed reads as no font, but it
  still occupies the slot, so the assertion in `_set_font` still fires
  (`DeadReferenceReadsNoneButBlocks`).
- Renaming to a new non-`None` name when the font is unset or destroyed makes
  the Python code fail with an attribute error at layer.py:68. This happens
  after the name has been validated. The model returns the error `NoFont` at
  that point. It does not forbid the call, because the no-op path and the
  `None` path never read the font.

## Model

| member | source | states |
|---|---|---|
| Layer.GetFont | Lib/fontParts/objects/base/layer.py:38-41 | an empty slot reads as no font; a live referent is returned, and a font is returned only when it is the slot's live referent |
| Layer.SetFont | Lib/fontParts/objects/base/layer.py:43-47 | fails with the assertion error exactly when the slot is occupied; otherwise the font read back is the one assigned, the slot stays empty when `None` is assigned, and nothing else changes |
| LayerProperties.FontIsSetOnce | Lib/fontParts/objects/base/layer.py:43-47 | after a font is stored, every later assignment fails, even of the same font or of `None` |
| LayerProperties.SettingNoFontKeepsSlotOpen | Lib/fontParts/objects/base/layer.py:38-47 | assigning `None` to an empty slot leaves it empty and readable as no font, so a font can still be assigned afterwards |
| Layer.GetParent | Lib/fontParts/objects/base/layer.py:26-30 | like the `font` getter: no parent when the slot is empty or its font is gone, and the live font when the slot holds one |
| LayerProperties.DeadReferenceReadsNoneButBlocks | Lib/fontParts/objects/base/layer.py:26-47 | a reference to a destroyed font reads as no font through `font` and `getParent`, yet blocks any new assignment |
| Layer.GetName | Lib/fontParts/objects/base/layer.py:57-61 | no name exactly when the hook has none; otherwise the validated hook value, or the layer-name validator's own error for that value |
| Layer.SetName | Lib/fontParts/objects/base/layer.py:63-71 | the current name is a no-op; only the name ever changes; a stored new name is absent from the font's layer order; a duplicate error names a layer the font already has; a failing read of the current name, or a new name the validator rejects, fails with that validator's own error |
| LayerProperties.RenameToCurrentIsNoOp | Lib/fontParts/objects/base/layer.py:63-65 | renaming to the current name succeeds unchanged with any font slot at all, so the font is never read |
| LayerProperties.RenameToExistingNameFails | Lib/fontParts/objects/base/layer.py:66-70 | a different, valid name whose validated form is in `layerOrder` is refused with that name and nothing is stored |
| LayerProperties.RenameToFreshNameStoresIt | Lib/fontParts/objects/base/layer.py:66-71 | a different, valid name not in `layerOrder` is stored in validated form and nothing else changes |
| LayerProperties.RenameToNoneClears | Lib/fontParts/objects/base/layer.py:63-71 | clearing a present name stores `None` without validation, without a duplicate check and without a font |
| LayerProperties.RenameOutcome | Lib/fontParts/objects/base/layer.py:63-71 | the exact condition for a rename to succeed, to fail for lack of a font, and to fail validation (both directions) |
| LayerProperties.RenameThenRead | Lib/fontParts/objects/base/layer.py:57-71 | with a stable validator, reading the name after a successful rename gives the validated new name, or no name |
| LayerProperties.DuplicateRenameScenario | Lib/fontParts/objects/base/layer.py:63-71 | in a font with layers "foreground" and "background", renaming another layer to "foreground" is refused |
| Layer.GetColor | Lib/fontParts/objects/base/layer.py:95-100 | no colour exactly when the hook has none; otherwise the validated hook value wrapped in `Color`, or the colour validator's own error for that value |
| Layer.SetColor | Lib/fontParts/objects/base/layer.py:102-105 | fails exactly when a non-`None` colour fails validation, with that error; `None` is stored unvalidated; otherwise the validated colour is stored; only the colour changes |
| LayerProperties.ColorRoundTrip | Lib/fontParts/objects/base/layer.py:95-105 | with a stable validator, reading the colour after a successful write gives the validated colour wrapped in `Color`, or no colour |
| LayerProperties.LengthZeroIffNoMembers | Lib/fontParts/objects/base/layer.py:140-219 | when every key validates to itself, the default length (the number of keys) is zero exactly when no name is a member |
| Layer.Contains | Lib/fontParts/objects/base/layer.py:206-219 | fails exactly when glyph-name validation fails; otherwise true exactly when the validated name is among the keys |
| Layer.HasKey | Lib/fontParts/objects/base/layer.py:206-221 | the alias behaves as the membership test: fails exactly when validation fails, otherwise true exactly when the validated name is among the keys |
| Layer.GetItem | Lib/fontParts/objects/base/layer.py:172-179 | for a valid name, the glyph of the validated name when membership of that name is true and "no glyph" for it when false, for every validator; conversely a glyph is returned only for a validated name the layer contains, and "no glyph" only for one it does not; an invalid name, or a failing second validation inside the membership test, fails with the validator's own error |
| LayerProperties.MembershipAgreesWithLookup | Lib/fontParts/objects/base/layer.py:172-221 | with a stable validator, lookup succeeds iff membership is true, reports a missing glyph iff membership is false, and fails validation iff membership does |
| LayerProperties.TwoGlyphScenario | Lib/fontParts/objects/base/layer.py:146-219 | with keys "a" and "b": the length is 2, "a" is in the layer, and looking up "c" reports no such glyph |
| LayerIteration.RunOver | Lib/fontParts/objects/base/layer.py:166-170 | the reference walk over a list of names yields at most one glyph per name: all of them when no lookup fails, fewer when it stops early |
| LayerIteration.RunOverYieldsLookups | Lib/fontParts/objects/base/layer.py:166-170 | the walk yields `layer[n]` for each name before it stops, in order, and stops only with the lookup error of the name it stopped at |
| LayerIteration.Walk | Lib/fontParts/objects/base/layer.py:167-170 | the loop that yields the lookup of the head and drops it produces exactly the reference walk over the names it was given |
| LayerIteration.Iterate | Lib/fontParts/objects/base/layer.py:146-170 | iteration over the single key snapshot: `len(layer)` glyphs, each `layer[k]` in key order, when no lookup fails; otherwise the glyphs before the first failing key, then that key's error |
| LayerProperties.RunOverValidNames | Lib/fontParts/objects/base/layer.py:160-179 | over names that are in the layer and validate to themselves, the walk yields one glyph per name, in order, and never stops early |
| LayerProperties.IterationYieldsEveryKey | Lib/fontParts/objects/base/layer.py:146-179 | when every key validates to itself, iteration yields the glyph of each key in snapshot order, `len(layer)` of them, with no omissions |

## Left out

- Layer.SetFont: assumes Python assertions are enabled. The set-once guard at layer.py:44 is a bare `assert`; under `python -O` it is removed and a second assignment silently replaces the slot. `FontIsSetOnce` and `DeadReferenceReadsNoneButBlocks` rest on the same assumption.

- `lib` (`_get_lib`): the base class only signals "not implemented", so there is no behaviour to model.
- `newGlyph`, `removeGlyph`, `insertGlyph`, `round`, `autoUnicodes`, `interpolate`, `getCharacterMapping`, `getReverseComponentMapping`: the base class gives them documentation and no body, so they have no behaviour to verify. `interpolate` would also need floating point.
- The "not implemented" signal of the editor hooks: the hooks are a concrete store here, so a subclass that omits one is not modelled.
- The bodies of `validateLayerName`, `validateColor`, `validateGlyphName`, and the `Color` wrapper, are not part of this model. They are parameters (a `Validators` bundle) and a plain wrapper datatype.
- Garbage collection of the font: a weak reference is a value whose target is either a font or gone. When a font is destroyed is not modelled.
- Mutation of the layer during iteration: the model's layer is immutable, so each lookup sees the same keys as the snapshot. Python's lazy generator is modelled as the complete list of yielded glyphs plus the error that ended it.
- The font's `layerOrder` is read but never updated by a rename. Keeping it in step is the editor's job, done by code that is not part of this model.
- Overrides: an editor subclass may replace `_len`, `_contains` and `_iter`. Only the default versions are modelled.
