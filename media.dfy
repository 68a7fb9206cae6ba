// The two download stages, identical in both revisions: url2Video streams the
// video into videos/<run id>/<title>.mp4, and video2Mp3 transcodes it into
// musics/<run id>/<title>.mp3. The stream and the transcoder are external; their
// outcome is a parameter.

module Media {
  import opened Domain
  import opened Naming

  /** How the video download ended. */
  datatype StreamEnd =
    | Finished      // the file stream emitted 'finish'
    | ErrorEvent    // the file stream emitted 'error', e.g. its directory is missing
    | Threw(e: Error) // the downloader threw while the stream was being set up

  /**
   * url2Video: resolves with the title and the video path once the file stream that
   * ytdl is piped into finishes; rejects with "Error with ytdl" when that file stream
   * errors, or with what was thrown.
   */
  function Url2Video(runId: string, resp: Resolution, stream: StreamEnd): (r: Result<Video>)
    ensures r.Ok? <==> stream == Finished
    ensures r.Ok? ==> r.value.vidName == resp.vidName && r.value.path == VideoPath(runId, resp.vidName)
    ensures stream == ErrorEvent ==> r == Err(YtdlError)
    ensures stream.Threw? ==> r == Err(stream.e)
  {
    match stream
    case Finished => Ok(Video(resp.vidName, VideoPath(runId, resp.vidName)))
    case ErrorEvent => Err(YtdlError)
    case Threw(e) => Err(e)
  }

  /**
   * video2Mp3: resolves with the audio path, named after the video's title, once the
   * transcoder ends; rejects with the transcoder's error otherwise.
   */
  function Video2Mp3(runId: string, video: Video, transcodeError: Option<string>): (r: Result<string>)
    ensures r.Ok? <==> transcodeError.None?
    ensures r.Ok? ==> r.value == AudioPath(runId, video.vidName)
    ensures transcodeError.Some? ==> r == Err(FfmpegError(transcodeError.value))
  {
    match transcodeError
    case None => Ok(AudioPath(runId, video.vidName))
    case Some(reason) => Err(FfmpegError(reason))
  }

  /**
   * A successful download-then-transcode of a `/`-free title leaves one video file and
   * one audio file, each directly in its directory for the run, named after the title.
   */
  lemma DownloadChainPaths(runId: string, resp: Resolution, stream: StreamEnd, transcodeError: Option<string>)
    requires '/' !in runId && '/' !in resp.vidName
    requires Url2Video(runId, resp, stream).Ok?
    requires Video2Mp3(runId, Url2Video(runId, resp, stream).value, transcodeError).Ok?
    ensures Segments(Url2Video(runId, resp, stream).value.path) == [VIDEO_DIR, runId, resp.vidName + VIDEO_EXT]
    ensures Segments(Video2Mp3(runId, Url2Video(runId, resp, stream).value, transcodeError).value)
         == [AUDIO_DIR, runId, resp.vidName + AUDIO_EXT]
  {
    PathsInRunDirectory(runId, resp.vidName);
  }
}
