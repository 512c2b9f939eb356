# tout-videoplayer source selection, modelled in Dafny

`<tout-videoplayer>` is a custom element that wraps a `<video>`. It reads the
sources a page declares, picks one by a fixed priority (HLS, then Dash, then
MP4, with natively playable formats first), loads hls.js when an HLS source
cannot be played natively, and binds the chosen source to the `<video>` or to
hls.js. This project models that pipeline as pure functions over immutable
values and proves what each step promises.

Modules (one file each):

- `Js` (`js.dfy`): `Option` for `undefined`, the two exception kinds, `endsWith`.
- `Mime` (`mime.dfy`): the three MIME strings and `sourceTypeFromFileName`.
- `Sources` (`sources.dfy`): source objects, `hydrateSource`, `setSourceType`,
  `childrenToSourceList` (as the left fold the code uses, with a reference
  filter it is proved equal to).
- `Select` (`select.dfy`): `Array.prototype.find`, `findBestSource`, and the
  decision ladder of `loadExternalSupport`.
- `Element` (`element.dfy`): the element's fields, the `hasHLSSupport` memo,
  the `srcObject` decision table and the routing of the `sourceList` setter,
  shared by both drafts of the element.
- `Player` (`player.dfy`): the draft in `src/tout-videoplayer.js`, which routes
  and binds by the `type` string.
- `Entry` (`entry.dfy`): the draft in `src/index.js` (the bundle's entry
  point), which routes and binds by the `isX` flags.

A setter returns an `Outcome`: the state it leaves and the exception it threw,
if any. Changes made before a throw are kept, as in JavaScript, so the
`_supportsHLS` memo and `_currentSrc` can change on a throwing call. A
`loadHLS()` promise is an entry in the state's `pending` list;
`LoaderSettled` is the step where that promise settles. Browser capability is
the string `canPlayType` answers, passed to every step that may read the memo.

The file `src/const/MIME.js` is not part of this model; its three constants
are taken to equal the literals `setSourceType` compares with:
`application/x-mpegURL`, `application/dash+xml` and `video/mp4`.

Behaviour of the code worth knowing:

- hydrating a source with an empty `src` does not fail;
- when no source is selected, `findBestSource` returns `undefined` and the
  setter throws a TypeError when it reads that value;
- a Dash source without native Dash support is silently left unbound, and the
  `srcObject` setter treats Dash as a no-op;
- binding HLS through hls.js when no hls.js instance exists throws a TypeError;
- a failed hls.js download is swallowed by `loadHLS`, so the callback runs
  `new undefined()` and throws a TypeError;
- every deferred HLS source starts its own `loadHLS()`, so several loads can be pending at once.

## Model

| member | source | states |
|---|---|---|
| Mime.SourceTypeFromFileName | src/util/sourceTypeFromFileName.js:8-20 | the answer is HLS exactly when the name ends in `.m3u8`, MP4 exactly for `.mp4`, DASH exactly for `.mpd`, and `''` exactly when none of them matches; it is always one of those four strings |
| Mime.SuffixesExclusive | src/util/sourceTypeFromFileName.js:9-17 | no filename ends in two of the recognised extensions, so the order of the tests never matters |
| Mime.ClassifyBySuffix | src/util/sourceTypeFromFileName.js:8-20 | for every prefix p, `p + ".m3u8"`, `p + ".mp4"` and `p + ".mpd"` classify as HLS, MP4 and DASH |
| Mime.ClassifyLastFive | src/util/sourceTypeFromFileName.js:8-20 | the classification of a name of length five or more is that of its last five characters |
| Sources.Hydrate | src/util/hydrateSource.js:8-22 | `src` is kept; a truthy `type` is kept verbatim; otherwise the type is the one the extension of `src` implies; the result always has a type and no `isX` flag |
| Sources.HydrateIdempotent | src/util/hydrateSource.js:13-21 | hydrating twice equals hydrating once |
| Sources.SetSourceType | src/util/setSourceType.js:5-10 | `src` and `type` are unchanged; `isHLS`, `isDash`, `isMP4` are each true exactly when `type` equals that MIME string; at most one is true |
| Sources.SetSourceTypeIdempotent | src/util/setSourceType.js:5-9 | setting the flags twice equals setting them once |
| Sources.SourceChildren | src/util/childrenToSourceList.js:8-17 | reference filter: no longer than the children, and each entry is the `{src, type}` projection of some `SOURCE` child |
| Sources.Collect | src/util/childrenToSourceList.js:8-17 | the `reduce` over the children appends exactly the reference filter to its accumulator |
| Sources.ChildrenToSourceList | src/util/childrenToSourceList.js:7-18 | the output is the reference filter of the children: at most as long, empty for no children, every entry an unflagged projection of a `SOURCE` child |
| Sources.SourceChildrenAppend | src/util/childrenToSourceList.js:8-17 | filtering distributes over concatenation, so document order is kept and non-`SOURCE` children contribute nothing |
| Sources.SourceChildMember | src/util/childrenToSourceList.js:9-15 | every `SOURCE` child's projection is in the output |
| Select.Find | src/util/findBestSource.js:8-10 | `find` is `undefined` exactly when no element matches, and otherwise returns the first matching element in list order |
| Select.FindAgrees | src/util/loadExternalSupport.js:12-14 | two predicates that agree on every element find the same element |
| Select.FindBestSource | src/util/findBestSource.js:7-35 | native HLS picks the first `isHLS` source; else native Dash the first `isDash`; else the first `isHLS`, then the first `isDash`, then the first `isMP4`; `undefined` exactly when no source has a truthy flag; a chosen source is an element of the list |
| Select.HlsCapabilityIrrelevant | src/util/findBestSource.js:13-26 | without native Dash, native HLS support never changes which source is chosen |
| Select.NativeDashBeatsLoadedHls | src/util/findBestSource.js:18-21 | with native Dash and no native HLS, a Dash source is chosen over an HLS source listed before it |
| Select.UnflaggedNeverSelected | src/util/findBestSource.js:8-10 | a list whose sources never had their flags set, such as hydrated sources, yields `undefined` |
| Select.LoadExternalSupport | src/util/loadExternalSupport.js:11-42 | resolves with the first HLS source under native HLS, else the first Dash source under native Dash, else adopts the hls.js loader when an HLS source exists, else `null` for Dash, else the first MP4 source or `undefined`; every branch resolves |
| Select.LoadExternalSupportAgrees | src/util/loadExternalSupport.js:17-40 | on sources whose flags match their types, the ladder follows the choice of `findBestSource`: that source when native or MP4, the loader for non-native HLS, `null` for non-native Dash, `undefined` when nothing is chosen |
| Element.ReadHlsSupport | src/tout-videoplayer.js:153-166 | the probe is used only while the memo is unset, and the answer is stored |
| Element.HlsSupportMemoised | src/index.js:132-145 | once read, later reads return the stored answer and leave the state alone, whatever the probe would now say |
| Element.Dispatch | src/tout-videoplayer.js:190-212 | the `srcObject` table: the video element gets the URL exactly for MP4, native HLS or native Dash; hls.js exactly for non-native HLS that is neither MP4 nor native Dash; the Dash no-op exactly for non-native Dash that is neither MP4 nor HLS; an error exactly when the source is none of the three |
| Element.RouteFor | src/tout-videoplayer.js:130-147 | the `sourceList` setter defers exactly a non-native HLS choice, leaves a non-native Dash choice unbound, and binds everything else at once |
| Element.BindNowIsDirect | src/tout-videoplayer.js:144-147 | a source bound at once is assigned to the video element or rejected, never sent to hls.js or the Dash no-op |
| Element.DeferredGoesToHls | src/tout-videoplayer.js:131-139 | a deferred HLS source that is neither MP4 nor Dash goes to hls.js once bound |
| Player.ConstructedValid | src/tout-videoplayer.js:11-18 | the constructed element satisfies the draft's state invariant |
| Player.SetSrcObject | src/tout-videoplayer.js:186-213 | `_currentSrc` becomes the value even when the setter throws; MP4 is assigned to the video element whatever the capabilities; native HLS is assigned; non-native HLS calls `hls.loadSource` or throws a TypeError without an hls.js instance; Dash binds nothing; any other type throws `Unsupported video type: "<type>"`; the memo and the invariant are kept |
| Player.SetSourceList | src/tout-videoplayer.js:124-148 | a missing or empty list changes nothing; an `undefined` choice throws a TypeError; a non-native HLS choice is queued for the loader without touching `_currentSrc`; a Dash choice binds nothing; any other choice goes through `srcObject`; `_sourceList` is never written |
| Player.LoaderSettled | src/tout-videoplayer.js:133-139 | a failed load throws before binding; a successful load creates an hls.js instance, attaches it to the video element, and only then loads the deferred source and sets `_currentSrc` |
| Player.SetSrc | src/tout-videoplayer.js:103-108 | as written, assigning `src` always throws a TypeError and changes only the memo |
| Player.SrcSetterRejectsMp4 | src/tout-videoplayer.js:103-108 | assigning `clip.mp4` to a fresh element throws and leaves the video element without a source |
| Player.HydratedChildrenNeverBind | src/tout-videoplayer.js:43-48 | the hydrated `<source>` children bind nothing: the setter is a no-op when there is no `<source>` child and throws otherwise |
| Player.SetSrcFlagged | src/tout-videoplayer.js:103-108 | the corrected `src` setter: a `.mp4` URL is assigned to the video element, a `.m3u8` URL is assigned or queued for hls.js depending on native HLS, a `.mpd` URL binds nothing, and only other URLs throw |
| Entry.ConstructedValid | src/index.js:11-18 | the constructed element satisfies the draft's state invariant |
| Entry.GetSourceList | src/index.js:85-97 | `_sourceList` when non-empty, otherwise one source built from the `src` attribute with type `video/mp4` and no flags |
| Entry.SourceListAlwaysFallsBack | src/index.js:85-97 | in every reachable state the getter answers a single MP4 source built from the `src` attribute, because the setter never stores its argument |
| Entry.SetSrcObject | src/index.js:165-192 | `_currentSrc` becomes the value even when the setter throws; `isMP4` is assigned to the video element; native `isHLS` is assigned; non-native `isHLS` calls `hls.loadSource` or throws a TypeError without an instance; `isDash` binds nothing; no flag throws `Unsupported video type` |
| Entry.SetSourceList | src/index.js:104-127 | a missing or empty list changes nothing; an `undefined` choice throws a TypeError; a non-native `isHLS` choice is queued for the loader; an `isDash` choice binds nothing; any other choice is assigned to the video element without throwing; `_sourceList` is never written |
| Entry.LoaderSettled | src/index.js:110-118 | a failed load throws before binding; a successful load attaches a new hls.js instance before the deferred source is loaded into it and recorded as `_currentSrc` |
| Entry.ReassignedFallbackThrows | src/index.js:85-107 | handing the getter's fallback back to the setter throws, because the fallback has a type but no `isMP4` flag |
| Entry.FlaggedChildOrigin | src/index.js:43-44 | every flagged source handed over by `connectedCallback` is a `<source>` child's projection with its flags set |
| Entry.FlaggedChildPresent | src/index.js:43-44 | every `<source>` child reaches the setter with its flags set |
| Entry.FlaggedChildrenChoose | src/index.js:43-44 | when some `<source>` child declares one of the three MIME types, selection picks one of the `<source>` children |
| Entry.ConnectedChildrenSelect | src/index.js:43-44 | with such a child the setter does not throw, and any source it binds at once is one of the `<source>` children |

## Findings

| source | as written | input that shows it | evidently intended | confidence | as-written member | corrected member |
|---|---|---|---|---|---|---|
| src/tout-videoplayer.js:103-108 | the `src` setter hydrates the value into `{src, type}`; hydration sets no `isX` flag, `findBestSource` selects only on those flags, so the choice is `undefined` and reading its `type` throws a TypeError; `connectedCallback` (lines 43-48) hands hydrated children to the same setter and fails the same way | `el.src = 'clip.mp4'` on a fresh element | the flags are set from the inferred type before selection, as `src/index.js:43-44` does with `setSourceType`, so `clip.mp4` plays | not executed; high | Player.SetSrc | Player.SetSrcFlagged |

## Left out

- `loadHLS` and `loadDASH`: the download and script evaluation are network access and foreign code. A settled `loadHLS()` promise is only a boolean: the Hls constructor or `undefined`. `loadDASH.js:22` restores the old value into `window.existingDashjs` instead of `window.dashjs`; this is not modelled because `loadDASH` is never called.
- The `canPlayType` probe on a throwaway `<video>`: its answer is a parameter.
- Rendering with hyperHTML, the lifecycle callbacks (`connectedCallback`, `disconnectedCallback`, `attributeChangedCallback`, `handleEvent`), `getAttribute`/`setAttribute`, `querySelector('video')` and `customElements.define`: DOM plumbing. The inner `<video>` is assumed rendered, and `connectedCallback` appears only through lemmas about the list it hands to the setter.
- The `src` setter and `sources` getter of `src/index.js`: they only write and read the `src` attribute, which is a parameter of `Entry.GetSourceList`.
- Promise scheduling: each deferred bind waits in `pending` until `LoaderSettled` is applied to it, in any order.
- `console.log`/`console.error` and the webpack build configuration.
- A `src` of `null` (a removed attribute): `src` is always a string here, so the TypeError `null.endsWith` would raise is not modelled.
- A `type` that is neither absent nor a string, and a `srcObject` assigned `undefined` by page code: values are always source objects with string types.
- The `hasDashSupport` getter is the constant `false` (`Element.HasDashSupport`); the `srcObject` table still takes native Dash as an argument, so its native-Dash row is stated but never taken by either draft.
- Which `<video>` hls.js attaches to: there is only one, so `attachMedia` records no argument.
- Error wording: the texts of the TypeErrors (`Element.NoHlsInstanceError`, `Element.NoHlsConstructorError`, and each draft's `UndefinedSourceError`) follow V8's messages; other engines word them differently, and only the kind of error and the point where it is raised are meant.
- Player.SetSrcObject: without an hls.js instance its contract states only that a TypeError is thrown, not which text it carries.
- Entry.SetSrcObject: without an hls.js instance its contract states only that a TypeError is thrown, not which text it carries.
