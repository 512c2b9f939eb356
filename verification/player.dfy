/**
 * The type-string draft of the element (`src/tout-videoplayer.js`): it
 * hydrates sources, selects with `findBestSource`, and routes and binds by
 * comparing `type` with the MIME strings.
 */
module Player {
  import opened Js
  import opened Mime
  import opened Sources
  import opened Select
  import opened Element

  /** This draft reads a source's kind from its `type` string. */
  function TypeView(s: Source): View {
    View(TypeIs(s, MP4), TypeIs(s, HLS), TypeIs(s, DASH))
  }

  /** The message of the error thrown for an unrecognised type; an absent type prints as `undefined`. */
  function UnsupportedMessage(mimeType: Option<string>): string {
    "Unsupported video type: \"" + (if mimeType.None? then "undefined" else mimeType.value) + "\""
  }

  /** The TypeError raised when the setter reads `type` of an `undefined` source. */
  const UndefinedSourceError: JsError := TypeError("Cannot read properties of undefined (reading 'type')")

  /**
   * What every reachable state of this draft satisfies: `_sourceList` is
   * still the constructor's `[]`, and every source waiting on hls.js is an HLS
   * source that was deferred because native HLS read false.
   */
  predicate Valid(st: State) {
    && st.sourceList == []
    && (|st.pending| > 0 ==> st.supportsHls == Some(false))
    && forall i :: 0 <= i < |st.pending| ==> TypeIs(st.pending[i], HLS)
  }

  lemma ConstructedValid()
    ensures Valid(Constructed)
  {
  }

  /**
   * The `srcObject` setter. `_currentSrc` is recorded before the dispatch, so
   * it changes even when the setter then throws.
   */
  function SetSrcObject(st: State, value: Source, canPlayType: string): (r: Outcome)
    ensures r.st.currentSrc == Some(value)
    ensures Evolves(st, r.st) && r.st.pending == st.pending
    ensures TypeIs(value, MP4) ==> r.thrown.None? && r.st.videoSrc == Some(value.src) && r.st.hls == st.hls
    ensures TypeIs(value, HLS) && r.st.supportsHls == Some(true) ==>
      r.thrown.None? && r.st.videoSrc == Some(value.src) && r.st.hls == st.hls
    ensures TypeIs(value, HLS) && r.st.supportsHls == Some(false) ==>
      && r.st.videoSrc == st.videoSrc
      && (st.hls.None? ==> r.thrown.Some? && r.thrown.value.TypeError? && r.st.hls == st.hls)
      && (st.hls.Some? ==> r.thrown.None? && r.st.hls == Some(HlsPlayer(st.hls.value.calls + [LoadSource(value.src)])))
    ensures TypeIs(value, DASH) ==> r.thrown.None? && r.st.videoSrc == st.videoSrc && r.st.hls == st.hls
    ensures r.thrown == Some(Error(UnsupportedMessage(value.mimeType))) <==>
      !TypeIs(value, MP4) && !TypeIs(value, HLS) && !TypeIs(value, DASH)
    ensures Valid(st) ==> Valid(r.st)
  {
    var (hasHls, st1) := ReadHlsSupport(st, canPlayType);
    var st2 := st1.(currentSrc := Some(value));
    Perform(st2, value, Dispatch(TypeView(value), hasHls, HasDashSupport()), UnsupportedMessage(value.mimeType))
  }

  /**
   * The `sourceList` setter. A missing or empty list changes nothing, not even
   * the memo. Otherwise the memo is read, `findBestSource` chooses, and the
   * chosen source is deferred until hls.js loads, left unbound (Dash), or
   * bound at once. An `undefined` choice throws when its `type` is read.
   */
  function SetSourceList(st: State, value: Option<seq<Source>>, canPlayType: string): (r: Outcome)
    ensures value.None? || value == Some([]) ==> r == Outcome(st, None)
    ensures r.st.sourceList == st.sourceList
    ensures value.Some? && |value.value| > 0 ==>
      var (hasHls, st1) := ReadHlsSupport(st, canPlayType);
      var chosen := FindBestSource(hasHls, HasDashSupport(), value.value);
      && (chosen.None? ==> r == Outcome(st1, Some(UndefinedSourceError)))
      && (chosen.Some? && TypeIs(chosen.value, HLS) && !hasHls ==>
            r == Outcome(st1.(pending := st.pending + [chosen.value]), None))
      && (chosen.Some? && TypeIs(chosen.value, DASH) ==> r == Outcome(st1, None))
      && (chosen.Some? && !(TypeIs(chosen.value, HLS) && !hasHls) && !TypeIs(chosen.value, DASH) ==>
            r == SetSrcObject(st1, chosen.value, canPlayType)
            && r.st.currentSrc == chosen
            && (r.thrown.None? <==> TypeIs(chosen.value, MP4) || TypeIs(chosen.value, HLS)))
    ensures Valid(st) ==> Valid(r.st)
  {
    if value.None? || |value.value| == 0 then Outcome(st, None)
    else
      var (hasHls, st1) := ReadHlsSupport(st, canPlayType);
      var hasDash := HasDashSupport();
      var source := FindBestSource(hasHls, hasDash, value.value);
      if source.None? then Outcome(st1, Some(UndefinedSourceError))
      else
        match RouteFor(TypeView(source.value), hasHls, hasDash)
        case DeferUntilHlsLoaded => Outcome(st1.(pending := st1.pending + [source.value]), None)
        case LeaveUnbound => Outcome(st1, None)
        case BindNow => SetSrcObject(st1, source.value, canPlayType)
  }

  /**
   * The `loadHLS().then(...)` callback for the `i`-th waiting source:
   * `fetched` says whether the promise resolved with the Hls constructor
   * (otherwise its catch handler resolved `undefined` and `new Hls()` throws).
   * On success a new hls.js instance is attached to the `<video>` and then the
   * source is bound through `srcObject`.
   */
  function LoaderSettled(st: State, i: nat, fetched: bool, canPlayType: string): (r: Outcome)
    requires i < |st.pending|
    ensures r.st.pending == st.pending[..i] + st.pending[i + 1..]
    ensures r.st.sourceList == st.sourceList
    ensures !fetched ==>
      r.thrown == Some(NoHlsConstructorError) && r.st.currentSrc == st.currentSrc && r.st.hls == st.hls
    ensures Valid(st) && fetched ==>
      && r.thrown.None?
      && r.st.currentSrc == Some(st.pending[i])
      && r.st.hls == Some(HlsPlayer([AttachMedia, LoadSource(st.pending[i].src)]))
      && r.st.videoSrc == st.videoSrc
    ensures Valid(st) ==> Valid(r.st)
  {
    var source := st.pending[i];
    var st1 := st.(pending := st.pending[..i] + st.pending[i + 1..]);
    assert Valid(st) ==> Valid(st1) by {
      if Valid(st) {
        assert forall k :: 0 <= k < |st1.pending| ==> st1.pending[k] in st.pending;
      }
    }
    if !fetched then Outcome(st1, Some(NoHlsConstructorError))
    else
      assert [AttachMedia] + [LoadSource(source.src)] == [AttachMedia, LoadSource(source.src)];
      SetSrcObject(st1.(hls := Some(HlsPlayer([AttachMedia]))), source, canPlayType)
  }

  /**
   * The `src` setter: the value becomes a one-element list of a hydrated
   * source. Hydration never sets the `isX` flags `findBestSource` selects on,
   * so every assignment throws and only the memo changes.
   */
  function SetSrc(st: State, value: string, canPlayType: string): (r: Outcome)
    ensures r == Outcome(ReadHlsSupport(st, canPlayType).1, Some(UndefinedSourceError))
    ensures r.st.currentSrc == st.currentSrc && r.st.videoSrc == st.videoSrc && r.st.pending == st.pending
  {
    var list := [Hydrate(Source(value, None, None))];
    UnflaggedNeverSelected(ReadHlsSupport(st, canPlayType).0, HasDashSupport(), list);
    SetSourceList(st, Some(list), canPlayType)
  }

  /** Concretely: assigning a plain MP4 URL to a fresh element throws instead of playing. */
  lemma SrcSetterRejectsMp4()
    ensures SetSrc(Constructed, "clip.mp4", "").thrown == Some(UndefinedSourceError)
    ensures SetSrc(Constructed, "clip.mp4", "").st.videoSrc == None
  {
  }

  /**
   * `connectedCallback` hands the hydrated `<source>` children to the setter;
   * for the same reason the element either does nothing (no `<source>` child)
   * or throws, whatever the children declare.
   */
  lemma {:induction false} HydratedChildrenNeverBind(st: State, children: seq<Child>, canPlayType: string)
    ensures var r := SetSourceList(st, Some(HydrateAll(ChildrenToSourceList(children))), canPlayType);
      && r.st.currentSrc == st.currentSrc
      && r.st.videoSrc == st.videoSrc
      && r.st.pending == st.pending
      && (r.thrown.None? <==> ChildrenToSourceList(children) == [])
  {
    var list := HydrateAll(ChildrenToSourceList(children));
    UnflaggedNeverSelected(ReadHlsSupport(st, canPlayType).0, HasDashSupport(), list);
  }

  /**
   * The `src` setter as evidently intended: the hydrated source also gets its
   * flags from `setSourceType` before it is handed to the `sourceList` setter.
   */
  function SetSrcFlagged(st: State, value: string, canPlayType: string): (r: Outcome)
    ensures EndsWith(value, ".mp4") ==>
      r.thrown.None? && r.st.videoSrc == Some(value) && r.st.currentSrc.Some? && r.st.currentSrc.value.src == value
    ensures EndsWith(value, ".m3u8") && r.st.supportsHls == Some(true) ==>
      r.thrown.None? && r.st.videoSrc == Some(value)
    ensures EndsWith(value, ".m3u8") && r.st.supportsHls == Some(false) ==>
      r.thrown.None? && r.st.pending == st.pending + [SetSourceType(Hydrate(Source(value, None, None)))]
    ensures EndsWith(value, ".mpd") ==>
      r.thrown.None? && r.st.videoSrc == st.videoSrc && r.st.currentSrc == st.currentSrc
    ensures r.thrown.Some? <==>
      !EndsWith(value, ".mp4") && !EndsWith(value, ".m3u8") && !EndsWith(value, ".mpd")
    ensures Valid(st) ==> Valid(r.st)
  {
    var source := SetSourceType(Hydrate(Source(value, None, None)));
    var hasHls := ReadHlsSupport(st, canPlayType).0;
    var chosen := FindBestSource(hasHls, HasDashSupport(), [source]);
    assert chosen.Some? ==> chosen.value == source;
    SetSourceList(st, Some([source]), canPlayType)
  }
}
