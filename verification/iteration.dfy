/** The default `_iter`: take one snapshot of `keys()` and, while it is not
    empty, yield `layer[first name]` and drop the head. A lookup that raises
    ends the iteration with that error after the glyphs already yielded. */
module LayerIteration {
  import opened Wrappers
  import opened Validators
  import opened Layer

  /** Everything one iteration produces: the glyphs yielded, in order, and the
      error that stopped it early, if any. */
  datatype Run = Run(yielded: seq<Glyph>, stopped: Option<Error>)

  /** Reference definition: the run over the remaining names `names`. */
  function RunOver(v: Validators, l: Layer, names: seq<string>): (r: Run)
    decreases |names|
    ensures |r.yielded| <= |names|
    ensures r.stopped.None? ==> |r.yielded| == |names|
    ensures r.stopped.Some? ==> |r.yielded| < |names|
  {
    if names == [] then Run([], None)
    else
      match GetItem(v, l, names[0])
      case Failure(e) => Run([], Some(e))
      case Success(g) =>
        var rest := RunOver(v, l, names[1..]);
        Run([g] + rest.yielded, rest.stopped)
  }

  /** The iteration of the layer as the Python code performs it: one snapshot of
      `keys()`, walked by `Walk`. */
  method Iterate(v: Validators, l: Layer) returns (yielded: seq<Glyph>, stopped: Option<Error>)
    ensures Run(yielded, stopped) == RunOver(v, l, Keys(l))
    ensures stopped.None? ==> |yielded| == Len(l)
    ensures stopped.Some? ==>
              |yielded| < Len(l) && GetItem(v, l, Keys(l)[|yielded|]) == Failure(stopped.value)
    ensures forall i :: 0 <= i < |yielded| ==> GetItem(v, l, Keys(l)[i]) == Success(yielded[i])
  {
    var names := Keys(l);
    yielded, stopped := Walk(v, l, names);
    RunOverYieldsLookups(v, l, names);
  }

  /** The loop of the default iteration: while names remain, yield the lookup
      of the first one and drop it; a failing lookup ends the walk. */
  method Walk(v: Validators, l: Layer, snapshot: seq<string>) returns (yielded: seq<Glyph>, stopped: Option<Error>)
    ensures Run(yielded, stopped) == RunOver(v, l, snapshot)
  {
    var names := snapshot;
    yielded := [];
    stopped := None;
    while names != []
      invariant RunOver(v, l, snapshot) ==
                  Run(yielded + RunOver(v, l, names).yielded, RunOver(v, l, names).stopped)
      decreases |names|
    {
      var item := GetItem(v, l, names[0]);
      RunOverStep(v, l, names);
      if item.Failure? {
        stopped := Some(item.error);
        return;
      }
      var rest := RunOver(v, l, names[1..]);
      assert (yielded + [item.value]) + rest.yielded == yielded + ([item.value] + rest.yielded);
      yielded := yielded + [item.value];
      names := names[1..];
    }
  }

  /** What the reference run yields: `layer[n]` for each name before the
      stop, and, when it stops, the lookup error of the name it stopped at. */
  lemma {:induction false} RunOverYieldsLookups(v: Validators, l: Layer, names: seq<string>)
    decreases |names|
    ensures RunOver(v, l, names).stopped.Some? ==>
              GetItem(v, l, names[|RunOver(v, l, names).yielded|]) == Failure(RunOver(v, l, names).stopped.value)
    ensures forall i :: 0 <= i < |RunOver(v, l, names).yielded| ==>
              GetItem(v, l, names[i]) == Success(RunOver(v, l, names).yielded[i])
  {
    if names != [] {
      RunOverStep(v, l, names);
      RunOverYieldsLookups(v, l, names[1..]);
    }
  }

  /** One step of the reference run: look up the head, then run over the tail. */
  lemma RunOverStep(v: Validators, l: Layer, names: seq<string>)
    requires names != []
    ensures RunOver(v, l, names) ==
              match GetItem(v, l, names[0])
              case Failure(e) => Run([], Some(e))
              case Success(g) => Run([g] + RunOver(v, l, names[1..]).yielded, RunOver(v, l, names[1..]).stopped)
  {
  }

  /** The glyphs a layer whose names all validate to themselves is expected to
      yield: one per key, in key order. */
  function GlyphsOf(names: seq<string>): seq<Glyph> {
    seq(|names|, i requires 0 <= i < |names| => Glyph(names[i]))
  }
}
