/** Properties of the layer model that relate several calls: set-once font,
    rename and colour round trips, the agreement of membership and lookup, and
    what the default iteration yields. */
module LayerProperties {
  import opened Wrappers
  import opened Validators
  import opened Layer
  import opened LayerIteration

  // ------
  // Parent
  // ------

  /** Once a font has been stored, every later assignment fails, whatever it assigns. */
  lemma FontIsSetOnce(l: Layer, f: Font, g: Option<Font>)
    requires SetFont(l, Some(f)).Success?
    ensures GetFont(SetFont(l, Some(f)).value) == Some(f)
    ensures SetFont(SetFont(l, Some(f)).value, g) == Failure(FontAlreadySet)
  {
  }

  /** Assigning no font to an empty slot changes nothing, so a real font can still follow. */
  lemma SettingNoFontKeepsSlotOpen(l: Layer, f: Font)
    requires l.fontSlot.None?
    ensures SetFont(l, None) == Success(l)
    ensures GetFont(l) == None
    ensures SetFont(SetFont(l, None).value, Some(f)).Success?
  {
  }

  /** A reference whose font has been destroyed reads as no font, yet still
      occupies the slot: assigning a font again fails. */
  lemma DeadReferenceReadsNoneButBlocks(l: Layer, g: Option<Font>)
    requires l.fontSlot == Some(WeakRef(None))
    ensures GetFont(l) == None
    ensures GetParent(l) == None
    ensures SetFont(l, g) == Failure(FontAlreadySet)
  {
  }

  // ----
  // Name
  // ----

  /** Renaming to the current name succeeds and changes nothing, whether or
      not the layer has a font and whatever names that font already has. */
  lemma RenameToCurrentIsNoOp(v: Validators, l: Layer, slot: Option<WeakRef>)
    requires GetName(v, l).Success?
    ensures SetName(v, l.(fontSlot := slot), GetName(v, l).value) == Success(l.(fontSlot := slot))
  {
  }

  /** A new non-`None` name whose validated form is already a layer of the
      font is refused with the validated name, and nothing is stored. */
  lemma RenameToExistingNameFails(v: Validators, l: Layer, name: string)
    requires GetName(v, l).Success? && GetName(v, l).value != Some(name)
    requires v.layerName(name).Success?
    requires GetFont(l).Some? && v.layerName(name).value in GetFont(l).value.layerOrder
    ensures SetName(v, l, Some(name)) == Failure(DuplicateLayerName(v.layerName(name).value))
  {
  }

  /** A new, valid name that the font does not have yet is stored in validated form. */
  lemma RenameToFreshNameStoresIt(v: Validators, l: Layer, name: string)
    requires GetName(v, l).Success? && GetName(v, l).value != Some(name)
    requires v.layerName(name).Success?
    requires GetFont(l).Some? && v.layerName(name).value !in GetFont(l).value.layerOrder
    ensures SetName(v, l, Some(name)) == Success(l.(rawName := Some(v.layerName(name).value)))
  {
  }

  /** Clearing a name skips validation and the duplicate check: it needs no font. */
  lemma RenameToNoneClears(v: Validators, l: Layer)
    requires GetName(v, l).Success? && GetName(v, l).value.Some?
    ensures SetName(v, l, None) == Success(l.(rawName := None))
  {
  }

  /** Exactly when a rename succeeds, and exactly how each failure arises. */
  lemma RenameOutcome(v: Validators, l: Layer, value: Option<string>)
    ensures SetName(v, l, value).Success? <==>
              GetName(v, l).Success? &&
              (GetName(v, l).value == value || value.None? ||
               (v.layerName(value.value).Success? && GetFont(l).Some? &&
                v.layerName(value.value).value !in GetFont(l).value.layerOrder))
    ensures SetName(v, l, value) == Failure(NoFont) <==>
              GetName(v, l).Success? && GetName(v, l).value != value && value.Some? &&
              v.layerName(value.value).Success? && GetFont(l).None?
    ensures SetName(v, l, value).Failure? && SetName(v, l, value).error.ValidationError? <==>
              GetName(v, l).Failure? ||
              (GetName(v, l).value != value && value.Some? && v.layerName(value.value).Failure?)
  {
  }

  /** With a stable name validator, the name read after a successful rename is
      the validated new name (or no name). */
  lemma RenameThenRead(v: Validators, l: Layer, value: Option<string>)
    requires LayerNameStable(v)
    requires SetName(v, l, value).Success?
    ensures GetName(v, SetName(v, l, value).value) ==
              Success(if value.None? then None else Some(v.layerName(value.value).value))
  {
  }

  // -----
  // Color
  // -----

  /** With a stable colour validator, reading after a successful write gives
      the validated colour wrapped in `Color`, or no colour. */
  lemma ColorRoundTrip(v: Validators, l: Layer, value: Option<ColorTuple>)
    requires ColorStable(v)
    requires SetColor(v, l, value).Success?
    ensures GetColor(v, SetColor(v, l, value).value) ==
              Success(if value.None? then None else Some(Color(v.color(value.value).value)))
  {
  }

  // -----------------
  // Glyph interaction
  // -----------------

  /** With a stable glyph-name validator, `name in layer` and `layer[name]`
      agree: the lookup succeeds exactly when membership is true, reports the
      missing glyph exactly when it is false, and fails validation exactly when
      the membership test does. */
  lemma MembershipAgreesWithLookup(v: Validators, l: Layer, name: string)
    requires GlyphNameStable(v)
    ensures GetItem(v, l, name).Success? <==> Contains(v, l, name) == Success(true)
    ensures GetItem(v, l, name).Failure? && GetItem(v, l, name).error.GlyphNotFound? <==>
              Contains(v, l, name) == Success(false)
    ensures GetItem(v, l, name).Failure? && GetItem(v, l, name).error.ValidationError? <==>
              Contains(v, l, name).Failure?
  {
  }

  /** When every key is a glyph name in normal form, the default length is
      zero exactly when no name at all is reported as a member. */
  lemma LengthZeroIffNoMembers(v: Validators, l: Layer)
    requires forall i :: 0 <= i < |Keys(l)| ==> v.glyphName(Keys(l)[i]) == Success(Keys(l)[i])
    ensures Len(l) == 0 <==> forall n :: Contains(v, l, n) != Success(true)
  {
    if Len(l) > 0 {
      assert Contains(v, l, Keys(l)[0]) == Success(true);
    }
  }

  /** A run over names that each validate to themselves and are all in the
      layer yields one glyph per name, in order, and never stops early. */
  lemma {:induction false} RunOverValidNames(v: Validators, l: Layer, names: seq<string>)
    requires forall i :: 0 <= i < |names| ==> v.glyphName(names[i]) == Success(names[i])
    requires forall i :: 0 <= i < |names| ==> names[i] in Keys(l)
    ensures RunOver(v, l, names) == Run(GlyphsOf(names), None)
    decreases |names|
  {
    if names != [] {
      assert GetItem(v, l, names[0]) == Success(Glyph(names[0]));
      RunOverValidNames(v, l, names[1..]);
      assert GlyphsOf(names) == [Glyph(names[0])] + GlyphsOf(names[1..]);
    }
  }

  /** When every key of the layer is a glyph name in normal form, default
      iteration yields `layer[k]` for each key `k` of the snapshot, in order:
      exactly `len(layer)` glyphs, none skipped. */
  lemma IterationYieldsEveryKey(v: Validators, l: Layer)
    requires forall i :: 0 <= i < |Keys(l)| ==> v.glyphName(Keys(l)[i]) == Success(Keys(l)[i])
    ensures RunOver(v, l, Keys(l)) == Run(GlyphsOf(Keys(l)), None)
    ensures |RunOver(v, l, Keys(l)).yielded| == Len(l)
  {
    RunOverValidNames(v, l, Keys(l));
  }

  // ---------
  // Scenarios
  // ---------

  /** Validators that accept every value unchanged. */
  function AcceptAll(): Validators {
    Validators(s => Success(s), c => Success(c), s => Success(s))
  }

  /** A layer with glyphs "a" and "b": its length is 2, "a" is in it, and
      looking up "c" reports that there is no such glyph. */
  lemma TwoGlyphScenario(l: Layer)
    requires Keys(l) == ["a", "b"]
    ensures Len(l) == 2
    ensures Contains(AcceptAll(), l, "a") == Success(true)
    ensures GetItem(AcceptAll(), l, "c") == Failure(GlyphNotFound("c"))
  {
  }

  /** In a font with layers "foreground" and "background", renaming a third
      layer to "foreground" is refused. */
  lemma DuplicateRenameScenario(l: Layer)
    requires GetFont(l) == Some(Font(["foreground", "background"]))
    requires l.rawName == Some("sketch")
    ensures SetName(AcceptAll(), l, Some("foreground")) == Failure(DuplicateLayerName("foreground"))
  {
  }
}
