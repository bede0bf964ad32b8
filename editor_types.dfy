/** The attribute records and enumerations of `src/components/author/editor/editor.types.ts`. */
module EditorTypes {
  import opened Wrappers

  /** The media a trigger refers to (`type: 'audio' | 'image' | 'video'`). */
  datatype MediaType = Audio | Image | Video

  /** What a trigger does (`action: 'play' | 'stop' | 'fade-in' | 'fade-out'`). */
  datatype TriggerAction = Play | Stop | FadeIn | FadeOut

  function MediaTypeName(t: MediaType): string {
    match t
    case Audio => "audio"
    case Image => "image"
    case Video => "video"
  }

  function ActionName(a: TriggerAction): string {
    match a
    case Play => "play"
    case Stop => "stop"
    case FadeIn => "fade-in"
    case FadeOut => "fade-out"
  }

  /** The media type a string names, if any. */
  function ParseMediaType(s: string): (t: Option<MediaType>)
    ensures t.Some? ==> MediaTypeName(t.value) == s
  {
    if s == "audio" then Some(Audio)
    else if s == "image" then Some(Image)
    else if s == "video" then Some(Video)
    else None
  }

  /** The action a string names, if any. */
  function ParseAction(s: string): (a: Option<TriggerAction>)
    ensures a.Some? ==> ActionName(a.value) == s
  {
    if s == "play" then Some(Play)
    else if s == "stop" then Some(Stop)
    else if s == "fade-in" then Some(FadeIn)
    else if s == "fade-out" then Some(FadeOut)
    else None
  }

  /** Every media type is named by a string that reads back as that type, so no two types share a name. */
  lemma MediaTypeNameRoundTrip(t: MediaType)
    ensures ParseMediaType(MediaTypeName(t)) == Some(t)
  {
  }

  /** Every action is named by a string that reads back as that action, so no two actions share a name. */
  lemma ActionNameRoundTrip(a: TriggerAction)
    ensures ParseAction(ActionName(a)) == Some(a)
  {
  }

  /** A trigger's volume, between 0 and 1; the model does no arithmetic on it. */
  type Volume = real

  /** `TriggerAmbianceAttrs`: the attributes a caller gives when inserting a trigger. */
  datatype TriggerAmbianceAttrs = TriggerAmbianceAttrs(
    id: string,
    mediaType: MediaType,
    mediaUrl: string,
    mediaId: Option<string>,
    action: TriggerAction,
    fadeInDuration: Option<int>,
    fadeOutDuration: Option<int>,
    loop: Option<bool>,
    volume: Option<Volume>)

  /** `AudioBlockAttrs`: the attributes a caller gives when inserting an audio block. */
  datatype AudioBlockAttrs = AudioBlockAttrs(
    src: string,
    title: Option<string>,
    duration: Option<int>,
    mediaId: Option<string>)
}
