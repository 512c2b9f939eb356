/**
 * The flag draft of the element (`src/index.js`, the bundle's entry point):
 * `<source>` children get their `isX` flags from `setSourceType`, and the
 * setters route and bind by those flags.
 */
module Entry {
  import opened Js
  import opened Mime
  import opened Sources
  import opened Select
  import opened Element

  /** This draft reads a source's kind from its `isX` flags. */
  function FlagView(s: Source): View {
    View(FlagMP4(s), FlagHLS(s), FlagDash(s))
  }

  /** The message of the error thrown when no flag is set. */
  const UnsupportedMessage: string := "Unsupported video type"

  /** The TypeError raised when the setter reads `isHLS` of an `undefined` source. */
  const UndefinedSourceError: JsError := TypeError("Cannot read properties of undefined (reading 'isHLS')")

  /**
   * What every reachable state of this draft satisfies: `_sourceList` is
   * still the constructor's `[]`, and every source waiting on hls.js carries
   * `isHLS` and was deferred because native HLS read false.
   */
  predicate Valid(st: State) {
    && st.sourceList == []
    && (|st.pending| > 0 ==> st.supportsHls == Some(false))
    && forall i :: 0 <= i < |st.pending| ==> FlagHLS(st.pending[i])
  }

  lemma ConstructedValid()
    ensures Valid(Constructed)
  {
  }

  /**
   * The `sourceList` getter: `_sourceList` when it is non-empty, otherwise a
   * single MP4 source built from the `src` attribute.
   */
  function GetSourceList(st: State, srcAttribute: string): (r: seq<Source>)
    ensures |r| > 0
    ensures |st.sourceList| > 0 ==> r == st.sourceList
    ensures |st.sourceList| == 0 ==> |r| == 1 && r[0].src == srcAttribute && TypeIs(r[0], MP4) && Unflagged(r[0])
  {
    if |st.sourceList| > 0 then st.sourceList
    else [Source(srcAttribute, Some(MP4), None)]
  }

  /**
   * The setter never stores its argument, so in every reachable state the
   * getter answers with the `src` attribute fallback.
   */
  lemma SourceListAlwaysFallsBack(st: State, srcAttribute: string)
    requires Valid(st)
    ensures GetSourceList(st, srcAttribute) == [Source(srcAttribute, Some(MP4), None)]
  {
  }

  /**
   * The `srcObject` setter. `_currentSrc` is recorded before the dispatch, so
   * it changes even when the setter then throws.
   */
  function SetSrcObject(st: State, value: Source, canPlayType: string): (r: Outcome)
    ensures r.st.currentSrc == Some(value)
    ensures Evolves(st, r.st) && r.st.pending == st.pending
    ensures FlagMP4(value) ==> r.thrown.None? && r.st.videoSrc == Some(value.src) && r.st.hls == st.hls
    ensures FlagHLS(value) && r.st.supportsHls == Some(true) ==>
      r.thrown.None? && r.st.videoSrc == Some(value.src) && r.st.hls == st.hls
    ensures FlagHLS(value) && !FlagMP4(value) && r.st.supportsHls == Some(false) ==>
      && r.st.videoSrc == st.videoSrc
      && (st.hls.None? ==> r.thrown.Some? && r.thrown.value.TypeError? && r.st.hls == st.hls)
      && (st.hls.Some? ==> r.thrown.None? && r.st.hls == Some(HlsPlayer(st.hls.value.calls + [LoadSource(value.src)])))
    ensures FlagDash(value) && !FlagHLS(value) && !FlagMP4(value) ==>
      r.thrown.None? && r.st.videoSrc == st.videoSrc && r.st.hls == st.hls
    ensures r.thrown == Some(Error(UnsupportedMessage)) <==> Unflagged(value)
    ensures Valid(st) ==> Valid(r.st)
  {
    var (hasHls, st1) := ReadHlsSupport(st, canPlayType);
    var st2 := st1.(currentSrc := Some(value));
    Perform(st2, value, Dispatch(FlagView(value), hasHls, HasDashSupport()), UnsupportedMessage)
  }

  /**
   * The `sourceList` setter. A missing or empty list changes nothing, not even
   * the memo. Otherwise the memo is read, `findBestSource` chooses, and the
   * chosen source is deferred until hls.js loads, left unbound (Dash), or
   * bound at once. An `undefined` choice throws when its `isHLS` is read.
   */
  function SetSourceList(st: State, value: Option<seq<Source>>, canPlayType: string): (r: Outcome)
    ensures value.None? || value == Some([]) ==> r == Outcome(st, None)
    ensures r.st.sourceList == st.sourceList
    ensures value.Some? && |value.value| > 0 ==>
      var (hasHls, st1) := ReadHlsSupport(st, canPlayType);
      var chosen := FindBestSource(hasHls, HasDashSupport(), value.value);
      && (chosen.None? ==> r == Outcome(st1, Some(UndefinedSourceError)))
      && (chosen.Some? && FlagHLS(chosen.value) && !hasHls ==>
            r == Outcome(st1.(pending := st.pending + [chosen.value]), None))
      && (chosen.Some? && FlagDash(chosen.value) && !(FlagHLS(chosen.value) && !hasHls) ==>
            r == Outcome(st1, None))
      && (chosen.Some? && !(FlagHLS(chosen.value) && !hasHls) && !FlagDash(chosen.value) ==>
            r == SetSrcObject(st1, chosen.value, canPlayType)
            && r.thrown.None? && r.st.currentSrc == chosen && r.st.videoSrc == Some(chosen.value.src))
    ensures Valid(st) ==> Valid(r.st)
  {
    if value.None? || |value.value| == 0 then Outcome(st, None)
    else
      var (hasHls, st1) := ReadHlsSupport(st, canPlayType);
      var hasDash := HasDashSupport();
      var source := FindBestSource(hasHls, hasDash, value.value);
      if source.None? then Outcome(st1, Some(UndefinedSourceError))
      else
        match RouteFor(FlagView(source.value), hasHls, hasDash)
        case DeferUntilHlsLoaded => Outcome(st1.(pending := st1.pending + [source.value]), None)
        case LeaveUnbound => Outcome(st1, None)
        case BindNow => SetSrcObject(st1, source.value, canPlayType)
  }

  /**
   * The `loadHLS().then(...)` callback for the `i`-th waiting source:
   * `fetched` says whether the promise resolved with the Hls constructor
   * (otherwise its catch handler resolved `undefined` and `new Hls()` throws).
   * On success a new hls.js instance is attached to the `<video>` and then the
   * source is bound through `srcObject`.
   */
  function LoaderSettled(st: State, i: nat, fetched: bool, canPlayType: string): (r: Outcome)
    requires i < |st.pending|
    ensures r.st.pending == st.pending[..i] + st.pending[i + 1..]
    ensures r.st.sourceList == st.sourceList
    ensures !fetched ==>
      r.thrown == Some(NoHlsConstructorError) && r.st.currentSrc == st.currentSrc && r.st.hls == st.hls
    ensures Valid(st) && fetched ==>
      && r.thrown.None?
      && r.st.currentSrc == Some(st.pending[i])
      && (FlagMP4(st.pending[i]) ==> r.st.videoSrc == Some(st.pending[i].src))
      && (!FlagMP4(st.pending[i]) ==>
            r.st.videoSrc == st.videoSrc
            && r.st.hls == Some(HlsPlayer([AttachMedia, LoadSource(st.pending[i].src)])))
    ensures Valid(st) ==> Valid(r.st)
  {
    var source := st.pending[i];
    var st1 := st.(pending := st.pending[..i] + st.pending[i + 1..]);
    assert Valid(st) ==> Valid(st1) by {
      if Valid(st) {
        assert forall k :: 0 <= k < |st1.pending| ==> st1.pending[k] in st.pending;
      }
    }
    if !fetched then Outcome(st1, Some(NoHlsConstructorError))
    else
      assert [AttachMedia] + [LoadSource(source.src)] == [AttachMedia, LoadSource(source.src)];
      SetSrcObject(st1.(hls := Some(HlsPlayer([AttachMedia]))), source, canPlayType)
  }

  /**
   * Handing the getter's fallback back to the setter throws: the fallback
   * carries `type: 'video/mp4'` but no `isMP4` flag, so nothing is selected.
   */
  lemma ReassignedFallbackThrows(st: State, srcAttribute: string, canPlayType: string)
    requires Valid(st)
    ensures SetSourceList(st, Some(GetSourceList(st, srcAttribute)), canPlayType).thrown == Some(UndefinedSourceError)
  {
    var list := GetSourceList(st, srcAttribute);
    UnflaggedNeverSelected(ReadHlsSupport(st, canPlayType).0, HasDashSupport(), list);
  }

  /** The flagged `<source>` children: what `connectedCallback` hands to the setter. */
  function FlaggedChildren(children: seq<Child>): seq<Source> {
    SetSourceTypeAll(ChildrenToSourceList(children))
  }

  /** Each flagged child is a `<source>` child's projection with its flags set. */
  lemma FlaggedChildOrigin(children: seq<Child>, s: Source)
    requires s in FlaggedChildren(children)
    ensures exists c | c in children :: IsSourceElement(c) && s == SetSourceType(Project(c))
  {
    var kids := ChildrenToSourceList(children);
    var m :| 0 <= m < |kids| && FlaggedChildren(children)[m] == s;
    assert kids[m] in kids;
  }

  /** A `<source>` child appears, flagged, among the flagged children. */
  lemma FlaggedChildPresent(children: seq<Child>, j: nat)
    requires j < |children| && IsSourceElement(children[j])
    ensures SetSourceType(Project(children[j])) in FlaggedChildren(children)
  {
    var kids := ChildrenToSourceList(children);
    SourceChildMember(children, j);
    var k :| 0 <= k < |kids| && kids[k] == Project(children[j]);
    assert FlaggedChildren(children)[k] == SetSourceType(kids[k]);
  }

  /**
   * When some `<source>` child declares one of the three MIME types,
   * selection over the flagged children picks one of them.
   */
  lemma FlaggedChildrenChoose(hasHls: bool, children: seq<Child>, j: nat)
    requires j < |children| && IsSourceElement(children[j])
    requires children[j].mimeType in {HLS, DASH, MP4}
    ensures var chosen := FindBestSource(hasHls, HasDashSupport(), FlaggedChildren(children));
      && chosen.Some?
      && exists c | c in children :: IsSourceElement(c) && chosen.value == SetSourceType(Project(c))
  {
    var list := FlaggedChildren(children);
    var s := SetSourceType(Project(children[j]));
    FlaggedChildPresent(children, j);
    assert !Unflagged(s);
    var chosen := FindBestSource(hasHls, HasDashSupport(), list);
    FlaggedChildOrigin(children, chosen.value);
  }

  /**
   * `connectedCallback` flags the `<source>` children before handing them to
   * the setter: when some child declares one of the three MIME types, the
   * setter does not throw, and whatever it binds at once is one of the
   * children.
   */
  lemma ConnectedChildrenSelect(st: State, children: seq<Child>, canPlayType: string, j: nat)
    requires j < |children| && IsSourceElement(children[j])
    requires children[j].mimeType in {HLS, DASH, MP4}
    ensures var r := SetSourceList(st, Some(FlaggedChildren(children)), canPlayType);
      && r.thrown.None?
      && (r.st.currentSrc != st.currentSrc ==>
            exists c | c in children :: IsSourceElement(c) && r.st.currentSrc == Some(SetSourceType(Project(c))))
  {
    var hasHls := ReadHlsSupport(st, canPlayType).0;
    FlaggedChildrenChoose(hasHls, children, j);
  }
}
