/** Records mirroring the interfaces of src/types.ts, with only the fields
    the core reads or passes on. Optional JavaScript properties become
    `Option`; an absent boolean flag is `false`. */
module Types {
  import opened Wrappers

  datatype VideoInfo = VideoInfo(
    title: string,
    author: string,
    duration: string,
    views: Option<int>,
    uploadDate: Option<string>,
    description: Option<string>,
    videoId: string)

  datatype DownloadOptions = DownloadOptions(
    outputDir: string,
    format: string,
    quality: string,
    audioOnly: bool,
    videoInfo: VideoInfo,
    transcriptOnly: bool,
    includeTranscript: bool)

  /** One format descriptor as offered by the retrieval library; the core
      only hands it on. */
  datatype Format = Format(itag: nat, container: string, qualityLabel: string, hasAudio: bool, hasVideo: bool)
}
