/**
 * Source selection: `findBestSource`, which picks by the `isX` flags, and the
 * decision ladder of `loadExternalSupport`, which picks by the `type` string.
 */
module Select {
  import opened Js
  import opened Mime
  import opened Sources

  /** Some element of `list` satisfies `p`. */
  predicate Exists(list: seq<Source>, p: Source -> bool) {
    exists i :: 0 <= i < |list| && p(list[i])
  }

  /** `i` is the position of the first element of `list` satisfying `p`. */
  predicate IsFirst(list: seq<Source>, p: Source -> bool, i: int) {
    0 <= i < |list| && p(list[i]) && forall j :: 0 <= j < i ==> !p(list[j])
  }

  /** `s` is the first element of `list` satisfying `p`. */
  ghost predicate FirstMatch(list: seq<Source>, p: Source -> bool, s: Source) {
    exists i :: IsFirst(list, p, i) && list[i] == s
  }

  /** `list.find(p)`: the first element satisfying `p`, or `undefined`. */
  function Find(list: seq<Source>, p: Source -> bool): (r: Option<Source>)
    ensures r.None? <==> !Exists(list, p)
    ensures r.Some? ==> FirstMatch(list, p, r.value)
  {
    if |list| == 0 then None
    else if p(list[0]) then
      assert IsFirst(list, p, 0);
      Some(list[0])
    else
      var r := Find(list[1..], p);
      if r.Some? then
        var i :| IsFirst(list[1..], p, i) && list[1..][i] == r.value;
        assert IsFirst(list, p, i + 1);
        r
      else
        assert forall i :: 1 <= i < |list| ==> list[i] == list[1..][i - 1];
        r
  }

  /** `find` depends only on which elements satisfy the predicate. */
  lemma {:induction false} FindAgrees(list: seq<Source>, p: Source -> bool, q: Source -> bool)
    requires forall i :: 0 <= i < |list| ==> p(list[i]) == q(list[i])
    ensures Find(list, p) == Find(list, q)
    decreases |list|
  {
    if |list| > 0 {
      FindAgrees(list[1..], p, q);
    }
  }

  // ------------------------------------------------------------- findBestSource

  /**
   * `findBestSource`: with native HLS, the first `isHLS` source; else with
   * native Dash, the first `isDash` source; else the first `isHLS` source,
   * then the first `isDash` source, then the first `isMP4` source, else
   * `undefined`.
   */
  function FindBestSource(hasHLSSupport: bool, hasDashSupport: bool, sourceList: seq<Source>): (r: Option<Source>)
    ensures hasHLSSupport && Exists(sourceList, FlagHLS) ==>
      r.Some? && FirstMatch(sourceList, FlagHLS, r.value)
    ensures !(hasHLSSupport && Exists(sourceList, FlagHLS)) && hasDashSupport && Exists(sourceList, FlagDash) ==>
      r.Some? && FirstMatch(sourceList, FlagDash, r.value)
    ensures !(hasDashSupport && Exists(sourceList, FlagDash)) && Exists(sourceList, FlagHLS) ==>
      r.Some? && FirstMatch(sourceList, FlagHLS, r.value)
    ensures !Exists(sourceList, FlagHLS) && Exists(sourceList, FlagDash) ==>
      r.Some? && FirstMatch(sourceList, FlagDash, r.value)
    ensures !Exists(sourceList, FlagHLS) && !Exists(sourceList, FlagDash) && Exists(sourceList, FlagMP4) ==>
      r.Some? && FirstMatch(sourceList, FlagMP4, r.value)
    ensures r.None? <==> forall i :: 0 <= i < |sourceList| ==> Unflagged(sourceList[i])
    ensures r.Some? ==> r.value in sourceList && !Unflagged(r.value)
  {
    var sourceHLS := Find(sourceList, FlagHLS);
    var sourceDash := Find(sourceList, FlagDash);
    var sourceMP4 := Find(sourceList, FlagMP4);
    if hasHLSSupport && sourceHLS.Some? then sourceHLS
    else if hasDashSupport && sourceDash.Some? then sourceDash
    else if sourceHLS.Some? then sourceHLS
    else if sourceDash.Some? then sourceDash
    else sourceMP4
  }

  /**
   * Without native Dash, native HLS never changes the choice: rules one and
   * three return the same first HLS source.
   */
  lemma HlsCapabilityIrrelevant(h1: bool, h2: bool, sourceList: seq<Source>)
    ensures FindBestSource(h1, false, sourceList) == FindBestSource(h2, false, sourceList)
  {
  }

  /** With native Dash but not native HLS, a Dash source beats an HLS one. */
  lemma NativeDashBeatsLoadedHls(hls: Source, dash: Source)
    requires FlagHLS(hls) && !FlagDash(hls) && FlagDash(dash)
    ensures FindBestSource(false, true, [hls, dash]) == Some(dash)
  {
    assert Exists([hls, dash], FlagDash) by { assert FlagDash([hls, dash][1]); }
    var i :| IsFirst([hls, dash], FlagDash, i) && [hls, dash][i] == FindBestSource(false, true, [hls, dash]).value;
  }

  /** A list of sources that never went through `setSourceType` yields `undefined`. */
  lemma UnflaggedNeverSelected(hasHLSSupport: bool, hasDashSupport: bool, sourceList: seq<Source>)
    requires forall i :: 0 <= i < |sourceList| ==> sourceList[i].flags.None?
    ensures FindBestSource(hasHLSSupport, hasDashSupport, sourceList).None?
  {
  }

  // -------------------------------------------------------- loadExternalSupport

  /** What the promise returned by `loadExternalSupport` resolves with. */
  datatype Resolution =
    | ResolveSource(source: Source)  // a source that can be played as is
    | ResolveHlsLoader               // the promise of `loadHLS()`, adopted
    | ResolveNull                    // `null`, the Dash placeholder
    | ResolveUndefined               // no `video/mp4` source to fall back on

  predicate IsHLSType(s: Source) { TypeIs(s, HLS) }
  predicate IsDashType(s: Source) { TypeIs(s, DASH) }
  predicate IsMP4Type(s: Source) { TypeIs(s, MP4) }

  /**
   * The decision ladder of `loadExternalSupport`. Every branch resolves; the
   * second argument passed to `resolve` in the HLS-loading branch is dropped.
   */
  function LoadExternalSupport(hasHLSSupport: bool, hasDashSupport: bool, sourceList: seq<Source>): (r: Resolution)
    ensures Exists(sourceList, IsHLSType) && hasHLSSupport ==>
      r.ResolveSource? && FirstMatch(sourceList, IsHLSType, r.source)
    ensures !(Exists(sourceList, IsHLSType) && hasHLSSupport) && Exists(sourceList, IsDashType) && hasDashSupport ==>
      r.ResolveSource? && FirstMatch(sourceList, IsDashType, r.source)
    ensures r.ResolveHlsLoader? <==>
      Exists(sourceList, IsHLSType) && !hasHLSSupport && !(Exists(sourceList, IsDashType) && hasDashSupport)
    ensures r.ResolveNull? <==>
      !Exists(sourceList, IsHLSType) && Exists(sourceList, IsDashType) && !hasDashSupport
    ensures r.ResolveUndefined? <==>
      !Exists(sourceList, IsHLSType) && !Exists(sourceList, IsDashType) && !Exists(sourceList, IsMP4Type)
    ensures !Exists(sourceList, IsHLSType) && !Exists(sourceList, IsDashType) && Exists(sourceList, IsMP4Type) ==>
      r.ResolveSource? && FirstMatch(sourceList, IsMP4Type, r.source)
  {
    var needHLS := Find(sourceList, IsHLSType);
    var needDash := Find(sourceList, IsDashType);
    var hasMP4 := Find(sourceList, IsMP4Type);
    if needHLS.Some? && hasHLSSupport then ResolveSource(needHLS.value)
    else if needDash.Some? && hasDashSupport then ResolveSource(needDash.value)
    else if needHLS.Some? && !hasHLSSupport then ResolveHlsLoader
    else if needDash.Some? && !hasDashSupport then ResolveNull
    else if hasMP4.Some? then ResolveSource(hasMP4.value)
    else ResolveUndefined
  }

  /**
   * On sources whose flags agree with their types, `loadExternalSupport`
   * follows the same priority as `findBestSource`: it resolves with the chosen
   * source when that is playable natively (or is MP4), adopts the HLS loader
   * when the chosen HLS source needs it, and resolves `null` for a chosen Dash
   * source without native support.
   */
  lemma {:induction false} LoadExternalSupportAgrees(hasHLSSupport: bool, hasDashSupport: bool, sourceList: seq<Source>)
    requires forall i :: 0 <= i < |sourceList| ==> FlagsMatchType(sourceList[i])
    ensures LoadExternalSupport(hasHLSSupport, hasDashSupport, sourceList) ==
      match FindBestSource(hasHLSSupport, hasDashSupport, sourceList)
      case None => ResolveUndefined
      case Some(s) =>
        if FlagHLS(s) then (if hasHLSSupport then ResolveSource(s) else ResolveHlsLoader)
        else if FlagDash(s) then (if hasDashSupport then ResolveSource(s) else ResolveNull)
        else ResolveSource(s)
  {
    FindAgrees(sourceList, FlagHLS, IsHLSType);
    FindAgrees(sourceList, FlagDash, IsDashType);
    FindAgrees(sourceList, FlagMP4, IsMP4Type);
  }
}
