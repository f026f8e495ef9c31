/** The short label a history entry gets for its input: the first 15
    characters of the text followed by "...", or else the kind of media,
    chosen by successive overwrites of a default in `main`. */
module Summary {

  const PreviewLength: nat := 15
  const Ellipsis: string := "..."

  /** Which input a label stands for. */
  datatype Source = FromText(preview: string) | FromAudio | FromImage | Default

  /** The label as `main` computes it: start from "Text", overwrite with
      "Image" when an image was uploaded, then with "Audio" when audio was
      recorded, then with a text preview when the text is non-empty. */
  function SourceSummary(text: string, hasImage: bool, hasAudio: bool): (r: string)
    ensures |r| <= PreviewLength + |Ellipsis|
    ensures text != "" ==> |r| >= |Ellipsis| && r[..|r| - |Ellipsis|] <= text && r[|r| - |Ellipsis|..] == Ellipsis
    ensures text != "" ==> |r| == (if |text| < PreviewLength then |text| else PreviewLength) + |Ellipsis|
    ensures text == "" ==> r == (if hasAudio then "Audio" else if hasImage then "Image" else "Text")
  {
    var s0 := "Text";
    var s1 := if hasImage then "Image" else s0;
    var s2 := if hasAudio then "Audio" else s1;
    if text != "" then text[..if |text| < PreviewLength then |text| else PreviewLength] + Ellipsis else s2
  }

  /** Reads a label back: a label ending in "..." is a text preview, the
      three fixed words name their source. */
  function SourceOf(tag: string): Source
  {
    if |tag| >= |Ellipsis| && tag[|tag| - |Ellipsis|..] == Ellipsis then FromText(tag[..|tag| - |Ellipsis|])
    else if tag == "Audio" then FromAudio
    else if tag == "Image" then FromImage
    else Default
  }

  /** The source that takes precedence: text over audio over image. */
  function Dominant(text: string, hasImage: bool, hasAudio: bool): Source
  {
    if text != "" then FromText(text[..if |text| < PreviewLength then |text| else PreviewLength])
    else if hasAudio then FromAudio
    else if hasImage then FromImage
    else Default
  }

  /** The label always names the dominant input, and a text label keeps the
      text's first 15 characters (all of them for a shorter text). */
  lemma SummaryNamesDominantSource(text: string, hasImage: bool, hasAudio: bool)
    ensures SourceOf(SourceSummary(text, hasImage, hasAudio)) == Dominant(text, hasImage, hasAudio)
  {
    var r := SourceSummary(text, hasImage, hasAudio);
    if text != "" {
      var n := if |text| < PreviewLength then |text| else PreviewLength;
      assert r == text[..n] + Ellipsis;
      assert r[..|r| - |Ellipsis|] == text[..n];
      assert r[|r| - |Ellipsis|..] == Ellipsis;
    } else if hasAudio {
      assert r == "Audio";
      assert r[|r| - |Ellipsis|..] != Ellipsis by { assert r[|r| - 1] != Ellipsis[2]; }
    } else if hasImage {
      assert r == "Image";
      assert r[|r| - |Ellipsis|..] != Ellipsis by { assert r[|r| - 1] != Ellipsis[2]; }
    } else {
      assert r == "Text";
      assert r[|r| - |Ellipsis|..] != Ellipsis by { assert r[|r| - 1] != Ellipsis[2]; }
    }
  }

  /** An uploaded image does not change the label once audio or text is
      present. */
  lemma ImageOverriddenByAudioOrText(text: string, hasAudio: bool)
    requires text != "" || hasAudio
    ensures SourceSummary(text, true, hasAudio) == SourceSummary(text, false, hasAudio)
  {
  }
}
