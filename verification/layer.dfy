/** The validate-then-delegate contract of fontParts' `BaseLayer`.
    The environment hooks (`_get_name`, `_set_name`, `_get_color`,
    `_set_color`, `_keys`, `_getItem`) are a plain store: the fields of
    `Layer`. Every public accessor is a pure function that returns either the
    new layer / the read value or the error the Python code raises. */
module Layer {
  import opened Wrappers
  import opened Validators

  /** The owning font, as far as the layer looks at it: its layer names in order. */
  datatype Font = Font(layerOrder: seq<string>)

  /** A weak reference to a font; `target` becomes `None` once the font is destroyed. */
  datatype WeakRef = WeakRef(target: Option<Font>)

  /** The wrapped glyph the item hook returns for a name that is in the layer. */
  datatype Glyph = Glyph(name: string)

  /** A layer: the weak font slot plus the environment's raw name, raw colour
      and glyph names (the value `_keys` returns). */
  datatype Layer = Layer(
    fontSlot: Option<WeakRef>,
    rawName: Option<string>,
    rawColor: Option<ColorTuple>,
    keys: seq<string>)

  /** What the accessors raise. `NoFont` is the attribute error of renaming a
      layer whose font is unset or gone. */
  datatype Error =
    | ValidationError(message: string)
    | DuplicateLayerName(name: string)
    | GlyphNotFound(name: string)
    | FontAlreadySet
    | NoFont

  /** A validator's outcome with its message turned into a `ValidationError`. */
  function Validated<T>(r: Result<T, string>): Result<T, Error> {
    match r
    case Success(x) => Success(x)
    case Failure(m) => Failure(ValidationError(m))
  }

  // ------
  // Parent
  // ------

  /** The `font` getter: no font when the slot is empty or its referent is gone. */
  function GetFont(l: Layer): (r: Option<Font>)
    ensures l.fontSlot.None? ==> r.None?
    ensures r.Some? ==> l.fontSlot == Some(WeakRef(r))
    ensures l.fontSlot.Some? && l.fontSlot.value.target.Some? ==> r == l.fontSlot.value.target
  {
    match l.fontSlot
    case None => None
    case Some(ref) => ref.target
  }

  /** `getParent`, kept for backwards compatibility: the same as the `font` getter. */
  function GetParent(l: Layer): (r: Option<Font>)
    ensures l.fontSlot.None? ==> r.None?
    ensures r.Some? ==> l.fontSlot == Some(WeakRef(r))
    ensures l.fontSlot.Some? && l.fontSlot.value.target.Some? ==> r == l.fontSlot.value.target
  {
    GetFont(l)
  }

  /** The `font` setter: fails whenever the slot is occupied (even by a dead
      reference); otherwise stores a reference to `font`, or leaves the slot
      empty when `font` is `None`. */
  function SetFont(l: Layer, font: Option<Font>): (r: Result<Layer, Error>)
    ensures r.Failure? <==> l.fontSlot.Some?
    ensures r.Failure? ==> r.error == FontAlreadySet
    ensures r.Success? ==> GetFont(r.value) == font
    ensures r.Success? ==> (r.value.fontSlot.Some? <==> font.Some?)
    ensures r.Success? ==> r.value.(fontSlot := l.fontSlot) == l
  {
    if l.fontSlot.Some? then Failure(FontAlreadySet)
    else if font.None? then Success(l)
    else Success(l.(fontSlot := Some(WeakRef(font))))
  }

  // ----
  // Name
  // ----

  /** The `name` getter: no name exactly when the hook has none, otherwise the
      validated hook value. */
  function GetName(v: Validators, l: Layer): (r: Result<Option<string>, Error>)
    ensures l.rawName.None? ==> r == Success(None)
    ensures l.rawName.Some? ==> (r.Success? <==> v.layerName(l.rawName.value).Success?)
    ensures r.Success? && l.rawName.Some? ==> r.value == Some(v.layerName(l.rawName.value).value)
    ensures r.Failure? ==> l.rawName.Some? && r.error == ValidationError(v.layerName(l.rawName.value).error)
  {
    match l.rawName
    case None => Success(None)
    case Some(raw) =>
      var name :- Validated(v.layerName(raw));
      Success(Some(name))
  }

  /** The `name` setter. Equal to the current name: nothing happens. `None`:
      stored without validation or a duplicate check. Otherwise the value is
      validated, rejected if the owning font already has a layer of that name,
      and the validated value is stored. Only the name ever changes. */
  function SetName(v: Validators, l: Layer, value: Option<string>): (r: Result<Layer, Error>)
    ensures GetName(v, l) == Success(value) ==> r == Success(l)
    ensures r.Success? ==> r.value == l.(rawName := r.value.rawName)
    ensures r.Success? && r.value.rawName != l.rawName && r.value.rawName.Some? ==>
              GetFont(l).Some? && r.value.rawName.value !in GetFont(l).value.layerOrder
    ensures r.Failure? && r.error.DuplicateLayerName? ==>
              GetFont(l).Some? && r.error.name in GetFont(l).value.layerOrder
    ensures GetName(v, l).Failure? ==> r == Failure(GetName(v, l).error)
    ensures GetName(v, l).Success? && GetName(v, l).value != value && value.Some? &&
            v.layerName(value.value).Failure? ==>
              r == Failure(ValidationError(v.layerName(value.value).error))
  {
    var current :- GetName(v, l);
    if value == current then Success(l)
    else if value.None? then Success(l.(rawName := None))
    else
      var name :- Validated(v.layerName(value.value));
      match GetFont(l)
      case None => Failure(NoFont)
      case Some(font) =>
        if name in font.layerOrder then Failure(DuplicateLayerName(name))
        else Success(l.(rawName := Some(name)))
  }

  // -----
  // Color
  // -----

  /** The `color` getter: no colour exactly when the hook has none, otherwise
      the validated hook value wrapped in `Color`. */
  function GetColor(v: Validators, l: Layer): (r: Result<Option<Color>, Error>)
    ensures l.rawColor.None? ==> r == Success(None)
    ensures l.rawColor.Some? ==> (r.Success? <==> v.color(l.rawColor.value).Success?)
    ensures r.Success? && l.rawColor.Some? ==> r.value == Some(Color(v.color(l.rawColor.value).value))
    ensures r.Failure? ==> l.rawColor.Some? && r.error == ValidationError(v.color(l.rawColor.value).error)
  {
    match l.rawColor
    case None => Success(None)
    case Some(raw) =>
      var c :- Validated(v.color(raw));
      Success(Some(Color(c)))
  }

  /** The `color` setter: `None` is stored as is; any other value must pass
      colour validation, and only the validated value reaches the store. */
  function SetColor(v: Validators, l: Layer, value: Option<ColorTuple>): (r: Result<Layer, Error>)
    ensures r.Failure? <==> value.Some? && v.color(value.value).Failure?
    ensures r.Failure? ==> r.error == ValidationError(v.color(value.value).error)
    ensures r.Success? ==> r.value == l.(rawColor := r.value.rawColor)
    ensures r.Success? ==> (r.value.rawColor.None? <==> value.None?)
    ensures r.Success? && value.Some? ==> r.value.rawColor == Some(v.color(value.value).value)
  {
    match value
    case None => Success(l.(rawColor := None))
    case Some(raw) =>
      var c :- Validated(v.color(raw));
      Success(l.(rawColor := Some(c)))
  }

  // -----------------
  // Glyph interaction
  // -----------------

  /** `keys()`: the glyph names the keys hook reports, passed on unchanged. */
  function Keys(l: Layer): seq<string> {
    l.keys
  }

  /** The default `_len` behind `len(layer)`: the number of keys. */
  function Len(l: Layer): nat {
    |Keys(l)|
  }

  /** `name in layer`: validate the glyph name, then the default `_contains`,
      which looks the validated name up in `keys()`. */
  function Contains(v: Validators, l: Layer, name: string): (r: Result<bool, Error>)
    ensures r.Failure? <==> v.glyphName(name).Failure?
    ensures r.Failure? ==> r.error == ValidationError(v.glyphName(name).error)
    ensures r.Success? ==> (r.value <==> v.glyphName(name).value in Keys(l))
  {
    var valid :- Validated(v.glyphName(name));
    Success(valid in Keys(l))
  }

  /** `has_key`, an alias of the membership test. */
  function HasKey(v: Validators, l: Layer, name: string): (r: Result<bool, Error>)
    ensures r.Failure? <==> v.glyphName(name).Failure?
    ensures r.Failure? ==> r.error == ValidationError(v.glyphName(name).error)
    ensures r.Success? ==> (r.value <==> v.glyphName(name).value in Keys(l))
  {
    Contains(v, l, name)
  }

  /** `layer[name]`: validate the glyph name, fail with "no glyph" unless the
      layer contains it (the membership test validates it a second time), and
      otherwise hand the validated name to the item hook. */
  function GetItem(v: Validators, l: Layer, name: string): (r: Result<Glyph, Error>)
    ensures r.Success? ==> v.glyphName(name).Success? && r.value == Glyph(v.glyphName(name).value)
    ensures r.Success? ==> Contains(v, l, v.glyphName(name).value) == Success(true)
    ensures r.Failure? && r.error.GlyphNotFound? ==>
              v.glyphName(name).Success? && r.error.name == v.glyphName(name).value &&
              Contains(v, l, r.error.name) == Success(false)
    ensures v.glyphName(name).Success? && Contains(v, l, v.glyphName(name).value) == Success(true) ==>
              r == Success(Glyph(v.glyphName(name).value))
    ensures v.glyphName(name).Success? && Contains(v, l, v.glyphName(name).value) == Success(false) ==>
              r == Failure(GlyphNotFound(v.glyphName(name).value))
    ensures v.glyphName(name).Failure? ==> r == Failure(ValidationError(v.glyphName(name).error))
    ensures v.glyphName(name).Success? && Contains(v, l, v.glyphName(name).value).Failure? ==>
              r == Failure(Contains(v, l, v.glyphName(name).value).error)
  {
    var valid :- Validated(v.glyphName(name));
    var present :- Contains(v, l, valid);
    if !present then Failure(GlyphNotFound(valid))
    else Success(Glyph(valid))
  }
}
