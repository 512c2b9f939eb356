/**
 * The MIME strings the player recognises and the suffix-based classifier
 * `sourceTypeFromFileName`.
 */
module Mime {
  import opened Js

  const HLS: string := "application/x-mpegURL"
  const DASH: string := "application/dash+xml"
  const MP4: string := "video/mp4"
  /** What the classifier answers for a filename it does not recognise. */
  const UNKNOWN: string := ""

  /**
   * Classifies a filename by its extension. The three recognised suffixes end
   * in different characters, so at most one of them can match and the order of
   * the tests does not change the answer.
   */
  function SourceTypeFromFileName(filename: string): (r: string)
    ensures r == HLS <==> EndsWith(filename, ".m3u8")
    ensures r == MP4 <==> EndsWith(filename, ".mp4")
    ensures r == DASH <==> EndsWith(filename, ".mpd")
    ensures r == UNKNOWN <==>
      !EndsWith(filename, ".m3u8") && !EndsWith(filename, ".mp4") && !EndsWith(filename, ".mpd")
    ensures r in {HLS, MP4, DASH, UNKNOWN}
  {
    SuffixesExclusive(filename);
    if EndsWith(filename, ".m3u8") then HLS
    else if EndsWith(filename, ".mp4") then MP4
    else if EndsWith(filename, ".mpd") then DASH
    else UNKNOWN
  }

  /** No filename ends with two of the recognised extensions. */
  lemma SuffixesExclusive(filename: string)
    ensures !(EndsWith(filename, ".m3u8") && EndsWith(filename, ".mp4"))
    ensures !(EndsWith(filename, ".m3u8") && EndsWith(filename, ".mpd"))
    ensures !(EndsWith(filename, ".mp4") && EndsWith(filename, ".mpd"))
  {
    if EndsWith(filename, ".m3u8") { EndsWithLast(filename, ".m3u8"); }
    if EndsWith(filename, ".mp4") { EndsWithLast(filename, ".mp4"); }
    if EndsWith(filename, ".mpd") { EndsWithLast(filename, ".mpd"); }
  }

  /** Whatever precedes a recognised extension, the extension alone decides. */
  lemma ClassifyBySuffix(p: string)
    ensures SourceTypeFromFileName(p + ".m3u8") == HLS
    ensures SourceTypeFromFileName(p + ".mp4") == MP4
    ensures SourceTypeFromFileName(p + ".mpd") == DASH
  {
    EndsWithAppend(p, ".m3u8");
    EndsWithAppend(p, ".mp4");
    EndsWithAppend(p, ".mpd");
  }

  /** The answer depends only on the last five characters of the filename. */
  lemma ClassifyLastFive(filename: string)
    requires |filename| >= 5
    ensures SourceTypeFromFileName(filename) == SourceTypeFromFileName(filename[|filename| - 5..])
  {
    var tail := filename[|filename| - 5..];
    EndsWithTail(filename, 5, ".m3u8");
    EndsWithTail(filename, 5, ".mp4");
    EndsWithTail(filename, 5, ".mpd");
    assert EndsWith(filename, ".m3u8") == EndsWith(tail, ".m3u8");
    assert EndsWith(filename, ".mp4") == EndsWith(tail, ".mp4");
    assert EndsWith(filename, ".mpd") == EndsWith(tail, ".mpd");
  }
}
