/**
 * State and decision tables shared by both drafts of the `<tout-videoplayer>`
 * element: the `hasHLSSupport` memo, the `srcObject` dispatch table, and the
 * routing the `sourceList` setter applies to the chosen source.
 */
module Element {
  import opened Js
  import opened Sources

  /** A call made on the hls.js instance. */
  datatype HlsCall = AttachMedia | LoadSource(src: string)

  /** The hls.js instance held in `this.hls`, with the calls made on it, oldest first. */
  datatype HlsPlayer = HlsPlayer(calls: seq<HlsCall>)

  /**
   * The element's fields: `_sourceList`, the `_supportsHLS` memo, `_currentSrc`
   * (what the `srcObject` getter returns), the `src` of the inner `<video>`,
   * `this.hls`, and the sources whose bind waits on an unsettled `loadHLS()`
   * promise.
   */
  datatype State = State(
    sourceList: seq<Source>,
    supportsHls: Option<bool>,
    currentSrc: Option<Source>,
    videoSrc: Option<string>,
    hls: Option<HlsPlayer>,
    pending: seq<Source>
  )

  /** The result of a setter: the state it leaves and the exception it threw, if any. */
  datatype Outcome = Outcome(st: State, thrown: Option<JsError>)

  /** The state the constructor leaves: `_sourceList = []`, everything else unset. */
  const Constructed: State := State([], None, None, None, None, [])

  /**
   * The `hasHLSSupport` getter. `canPlayType` is what a fresh `<video>`
   * answers for `application/x-mpegURL`; it is consulted only while the memo
   * is unset, and the answer is stored.
   */
  function ReadHlsSupport(st: State, canPlayType: string): (r: (bool, State))
    ensures r.1 == st.(supportsHls := Some(r.0))
    ensures st.supportsHls.Some? ==> r.0 == st.supportsHls.value
    ensures st.supportsHls.None? ==> (r.0 <==> canPlayType != "")
  {
    if st.supportsHls.Some? then (st.supportsHls.value, st)
    else
      var supported := canPlayType != "";
      (supported, st.(supportsHls := Some(supported)))
  }

  /** Once probed, later reads return the cached answer whatever the probe would now say. */
  lemma HlsSupportMemoised(st: State, first: string, later: string)
    ensures var (a, st1) := ReadHlsSupport(st, first);
            ReadHlsSupport(st1, later) == (a, st1)
  {
  }

  /** The `hasDashSupport` getter: Dash is never reported as native. */
  function HasDashSupport(): bool {
    false
  }

  /**
   * A step keeps the memo once it is set, leaves it set, and never writes
   * `_sourceList`.
   */
  predicate Evolves(st: State, st': State) {
    && st'.sourceList == st.sourceList
    && st'.supportsHls.Some?
    && (st.supportsHls.Some? ==> st'.supportsHls == st.supportsHls)
  }

  /** How a draft reads a source's kind: by `type` string or by `isX` flag. */
  datatype View = View(mp4: bool, hls: bool, dash: bool)

  /** What the `srcObject` setter does with its value. */
  datatype BindAction =
    | AssignVideoSrc  // `elVideo.src = value.src`
    | HlsLoadSource   // `hls.loadSource(value.src)`
    | DashNothing     // the Dash placeholder branch
    | Unsupported     // `throw new Error(...)`

  /**
   * The ordered decision table of the `srcObject` setter: MP4, native HLS,
   * native Dash, hls.js, Dash placeholder, otherwise an error.
   */
  function Dispatch(v: View, hasHls: bool, hasDash: bool): (a: BindAction)
    ensures a == AssignVideoSrc <==> v.mp4 || (hasHls && v.hls) || (hasDash && v.dash)
    ensures a == HlsLoadSource <==> !v.mp4 && v.hls && !hasHls && !(hasDash && v.dash)
    ensures a == DashNothing <==> !v.mp4 && !v.hls && v.dash && !hasDash
    ensures a == Unsupported <==> !v.mp4 && !v.hls && !v.dash
  {
    if v.mp4 then AssignVideoSrc
    else if hasHls && v.hls then AssignVideoSrc
    else if hasDash && v.dash then AssignVideoSrc
    else if v.hls then HlsLoadSource
    else if v.dash then DashNothing
    else Unsupported
  }

  /** The TypeError raised by `new Hls()` when `loadHLS()` resolved with `undefined`. */
  const NoHlsConstructorError: JsError := TypeError("Hls is not a constructor")

  /** The TypeError raised by `hls.loadSource(...)` when `this.hls` is `undefined`. */
  const NoHlsInstanceError: JsError := TypeError("Cannot read properties of undefined (reading 'loadSource')")

  /** Carries out a `srcObject` action on a state whose `_currentSrc` is already set. */
  function Perform(st: State, value: Source, a: BindAction, unsupportedMessage: string): Outcome {
    match a
    case AssignVideoSrc => Outcome(st.(videoSrc := Some(value.src)), None)
    case HlsLoadSource =>
      if st.hls.None? then
        Outcome(st, Some(NoHlsInstanceError))
      else
        Outcome(st.(hls := Some(HlsPlayer(st.hls.value.calls + [LoadSource(value.src)]))), None)
    case DashNothing => Outcome(st, None)
    case Unsupported => Outcome(st, Some(Error(unsupportedMessage)))
  }

  /** What the `sourceList` setter does with the source `findBestSource` chose. */
  datatype Route =
    | DeferUntilHlsLoaded  // `loadHLS().then(...)` binds it later
    | LeaveUnbound         // the Dash placeholder branch
    | BindNow              // `this.srcObject = source`

  /**
   * The routing of the `sourceList` setter: an HLS source without native HLS
   * waits for hls.js, a Dash source without native Dash is left alone, any
   * other source is bound at once.
   */
  function RouteFor(v: View, hasHls: bool, hasDash: bool): (r: Route)
    ensures r == DeferUntilHlsLoaded <==> v.hls && !hasHls
    ensures r == LeaveUnbound <==> !(v.hls && !hasHls) && v.dash && !hasDash
    ensures r == BindNow <==> !(v.hls && !hasHls) && !(v.dash && !hasDash)
  {
    if v.hls && !hasHls then DeferUntilHlsLoaded
    else if v.dash && !hasDash then LeaveUnbound
    else BindNow
  }

  /**
   * A source the setter binds at once is either assigned to the `<video>` or
   * rejected; it never reaches hls.js or the Dash placeholder.
   */
  lemma BindNowIsDirect(v: View, hasHls: bool, hasDash: bool)
    requires RouteFor(v, hasHls, hasDash) == BindNow
    ensures Dispatch(v, hasHls, hasDash) in {AssignVideoSrc, Unsupported}
  {
  }

  /**
   * A deferred source that is HLS but not MP4 goes to hls.js once the loader
   * settles, as long as native HLS support still reads false.
   */
  lemma DeferredGoesToHls(v: View, hasDash: bool)
    requires RouteFor(v, false, hasDash) == DeferUntilHlsLoaded && !v.mp4 && !v.dash
    ensures Dispatch(v, false, hasDash) == HlsLoadSource
  {
  }
}
