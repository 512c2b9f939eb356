/**
 * Source objects and the three helpers that build them: `hydrateSource`,
 * `setSourceType` and `childrenToSourceList`.
 */
module Sources {
  import opened Js
  import opened Mime

  /** The `isHLS`, `isDash` and `isMP4` properties `setSourceType` attaches. */
  datatype Flags = Flags(isHLS: bool, isDash: bool, isMP4: bool)

  /**
   * A source object `{src, type, isHLS, isDash, isMP4}`. `type` is None when
   * the property is absent; `flags` is None when the object never went
   * through `setSourceType`, so all three flags read as `undefined`.
   */
  datatype Source = Source(src: string, mimeType: Option<string>, flags: Option<Flags>)

  /**
   * A child element of `<tout-videoplayer>`: its `nodeName` and the `src` and
   * `type` properties a `<source>` element reflects from its attributes.
   */
  datatype Child = Child(nodeName: string, src: string, mimeType: string)

  /** `source.mimeType === mime`. */
  predicate TypeIs(s: Source, mime: string) {
    s.mimeType == Some(mime)
  }

  /** Whether `source.mimeType` is truthy: present and not the empty string. */
  predicate HasType(s: Source) {
    s.mimeType.Some? && s.mimeType.value != ""
  }

  /** Truthiness of `source.isHLS`, `source.isDash` and `source.isMP4`. */
  predicate FlagHLS(s: Source) {
    s.flags.Some? && s.flags.value.isHLS
  }
  predicate FlagDash(s: Source) {
    s.flags.Some? && s.flags.value.isDash
  }
  predicate FlagMP4(s: Source) {
    s.flags.Some? && s.flags.value.isMP4
  }

  /** A source carrying no truthy flag, such as every hydrated source. */
  predicate Unflagged(s: Source) {
    !FlagHLS(s) && !FlagDash(s) && !FlagMP4(s)
  }

  /** A source whose flags are exactly the ones its `type` implies. */
  predicate FlagsMatchType(s: Source) {
    s.flags.Some?
    && (FlagHLS(s) <==> TypeIs(s, HLS))
    && (FlagDash(s) <==> TypeIs(s, DASH))
    && (FlagMP4(s) <==> TypeIs(s, MP4))
  }

  // ---------------------------------------------------------------- hydrateSource

  /**
   * Keeps `src`, keeps a truthy `type` verbatim, otherwise infers the type
   * from the filename, and builds a fresh object holding only those two
   * properties.
   */
  function Hydrate(source: Source): (r: Source)
    ensures r.src == source.src
    ensures HasType(source) ==> r.mimeType == source.mimeType
    ensures !HasType(source) ==>
      && (TypeIs(r, HLS) <==> EndsWith(source.src, ".m3u8"))
      && (TypeIs(r, MP4) <==> EndsWith(source.src, ".mp4"))
      && (TypeIs(r, DASH) <==> EndsWith(source.src, ".mpd"))
      && (HasType(r) <==> TypeIs(r, HLS) || TypeIs(r, MP4) || TypeIs(r, DASH))
    ensures r.mimeType.Some?
    ensures r.flags.None? && Unflagged(r)
  {
    var mimeType := if HasType(source) then source.mimeType else Some(SourceTypeFromFileName(source.src));
    Source(source.src, mimeType, None)
  }

  /** Hydrating a hydrated source changes nothing. */
  lemma HydrateIdempotent(source: Source)
    ensures Hydrate(Hydrate(source)) == Hydrate(source)
  {
  }

  /** `list.map(hydrateSource)`. */
  function HydrateAll(list: seq<Source>): (r: seq<Source>)
    ensures |r| == |list|
    ensures forall i :: 0 <= i < |list| ==> r[i] == Hydrate(list[i])
  {
    seq(|list|, i requires 0 <= i < |list| => Hydrate(list[i]))
  }

  // ---------------------------------------------------------------- setSourceType

  /** The flags a `type` implies, each one a strict string comparison. */
  function FlagsFor(mimeType: Option<string>): Flags {
    Flags(mimeType == Some(HLS), mimeType == Some(DASH), mimeType == Some(MP4))
  }

  /**
   * Sets the three flags from `type` and returns the same object; `src` and
   * `type` are untouched and at most one flag is true.
   */
  function SetSourceType(source: Source): (r: Source)
    ensures r.src == source.src && r.mimeType == source.mimeType
    ensures FlagsMatchType(r)
    ensures !(FlagHLS(r) && FlagDash(r)) && !(FlagHLS(r) && FlagMP4(r)) && !(FlagDash(r) && FlagMP4(r))
  {
    source.(flags := Some(FlagsFor(source.mimeType)))
  }

  /** Setting the flags a second time changes nothing. */
  lemma SetSourceTypeIdempotent(source: Source)
    ensures SetSourceType(SetSourceType(source)) == SetSourceType(source)
  {
  }

  /** `list.map(setSourceType)`. */
  function SetSourceTypeAll(list: seq<Source>): (r: seq<Source>)
    ensures |r| == |list|
    ensures forall i :: 0 <= i < |list| ==> r[i] == SetSourceType(list[i])
  {
    seq(|list|, i requires 0 <= i < |list| => SetSourceType(list[i]))
  }

  // --------------------------------------------------------- childrenToSourceList

  predicate IsSourceElement(c: Child) {
    c.nodeName == "SOURCE"
  }

  /** The `{src, type}` object pushed for a `<source>` child. */
  function Project(c: Child): Source {
    Source(c.src, Some(c.mimeType), None)
  }

  /**
   * Reference definition: the projections of the `<source>` children, in
   * document order.
   */
  function SourceChildren(children: seq<Child>): (r: seq<Source>)
    ensures |r| <= |children|
    ensures forall s | s in r :: exists c | c in children :: IsSourceElement(c) && s == Project(c)
  {
    if |children| == 0 then []
    else
      var head := if IsSourceElement(children[0]) then [Project(children[0])] else [];
      var tail := SourceChildren(children[1..]);
      assert forall c | c in children[1..] :: c in children;
      head + tail
  }

  /**
   * The `reduce` callback folded over the children from the left: a
   * non-`<source>` child leaves the accumulator alone, a `<source>` child
   * pushes its projection. The fold appends the reference filter to the
   * accumulator.
   */
  function Collect(children: seq<Child>, acc: seq<Source>): (r: seq<Source>)
    ensures r == acc + SourceChildren(children)
  {
    if |children| == 0 then acc
    else
      var c := children[0];
      var head := if IsSourceElement(c) then [Project(c)] else [];
      var acc' := acc + head;
      var r := Collect(children[1..], acc');
      assert SourceChildren(children) == head + SourceChildren(children[1..]);
      assert (acc + head) + SourceChildren(children[1..]) == acc + (head + SourceChildren(children[1..]));
      r
  }

  /**
   * `childrenToSourceList`: exactly the `<source>` children, in order, each
   * as a `{src, type}` object without flags.
   */
  function ChildrenToSourceList(children: seq<Child>): (r: seq<Source>)
    ensures r == SourceChildren(children)
    ensures |r| <= |children|
    ensures |children| == 0 ==> r == []
    ensures forall s | s in r :: s.flags.None? && exists c | c in children :: IsSourceElement(c) && s == Project(c)
  {
    Collect(children, [])
  }

  /** Filtering distributes over concatenation, so order is kept. */
  lemma {:induction false} SourceChildrenAppend(a: seq<Child>, b: seq<Child>)
    ensures SourceChildren(a + b) == SourceChildren(a) + SourceChildren(b)
    decreases |a|
  {
    if |a| == 0 {
      assert a + b == b;
    } else {
      var head := if IsSourceElement(a[0]) then [Project(a[0])] else [];
      assert (a + b)[0] == a[0];
      assert (a + b)[1..] == a[1..] + b;
      calc {
        SourceChildren(a + b);
        head + SourceChildren(a[1..] + b);
        { SourceChildrenAppend(a[1..], b); }
        head + (SourceChildren(a[1..]) + SourceChildren(b));
        (head + SourceChildren(a[1..])) + SourceChildren(b);
        SourceChildren(a) + SourceChildren(b);
      }
    }
  }

  /** One child contributes its projection when it is a `<source>`, else nothing. */
  lemma SourceChildrenSingle(c: Child)
    ensures SourceChildren([c]) == if IsSourceElement(c) then [Project(c)] else []
  {
  }

  /** Every `<source>` child appears in the output. */
  lemma {:induction false} SourceChildMember(children: seq<Child>, i: nat)
    requires i < |children| && IsSourceElement(children[i])
    ensures Project(children[i]) in ChildrenToSourceList(children)
  {
    assert children == children[..i] + [children[i]] + children[i + 1..];
    SourceChildrenAppend(children[..i] + [children[i]], children[i + 1..]);
    SourceChildrenAppend(children[..i], [children[i]]);
  }
}
