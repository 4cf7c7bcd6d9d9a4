/** The fixed lists of media types and of file names each type serves. */
module FileDefinitions {

  const FileTypes: seq<string> := ["gameclips", "screenshots"]

  const GameclipFileNames: seq<string> := ["gameclip.mp4", "thumbnail-small.png", "thumbnail-large.png"]

  const ScreenshotFileNames: seq<string> := ["screenshot.png", "thumbnail-small.png", "thumbnail-large.png"]

  predicate PairwiseDistinct(names: seq<string>) {
    forall i, j :: 0 <= i < j < |names| ==> names[i] != names[j]
  }

  /** Each file-name list has three entries, no two alike. */
  lemma FileNameListsAreSets()
    ensures |GameclipFileNames| == 3 && PairwiseDistinct(GameclipFileNames)
    ensures |ScreenshotFileNames| == 3 && PairwiseDistinct(ScreenshotFileNames)
    ensures |FileTypes| == 2 && PairwiseDistinct(FileTypes)
  {
  }

  /** Thumbnails exist for both types; each full-size name belongs to one type only. */
  lemma FileNamesByType()
    ensures "thumbnail-small.png" in GameclipFileNames && "thumbnail-small.png" in ScreenshotFileNames
    ensures "thumbnail-large.png" in GameclipFileNames && "thumbnail-large.png" in ScreenshotFileNames
    ensures "gameclip.mp4" in GameclipFileNames && "gameclip.mp4" !in ScreenshotFileNames
    ensures "screenshot.png" in ScreenshotFileNames && "screenshot.png" !in GameclipFileNames
  {
  }
}
