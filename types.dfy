/** The records shared by the clip editor and the catalogue (src/types/Clip.ts, src/types/Video.ts). */
module Types {

  /** A value that may be absent: an optional prop, a callback that may not fire. */
  datatype Option<+T> = None | Some(value: T)

  /** A named sub-range of a video, in seconds. Nothing here forces `start < end`. */
  datatype Clip = Clip(id: string, name: string, start: real, end: real)

  /** A catalogue entry. */
  datatype Video = Video(id: string, title: string, thumbnail: string, src: string)

  /** The name the editor page gives the clip spanning the whole video. */
  const DefaultClipName: string := "Video Completo"

  /** The id the editor page gives that clip. */
  const FullClipId: string := "full"
}
