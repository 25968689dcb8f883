/** FileUpload::getFileType: the media category of a MIME type. */
module Files {
  import Config

  datatype FileType = Image | Video | Audio | Document

  /** The first allowed list, in image, video, audio order, that holds the MIME type; otherwise a document. */
  function GetFileType(mime: string): (t: FileType)
    ensures t == Image <==> mime in Config.ALLOWED_IMAGE_TYPES
    ensures t == Video <==> mime !in Config.ALLOWED_IMAGE_TYPES && mime in Config.ALLOWED_VIDEO_TYPES
    ensures t == Audio <==> mime !in Config.ALLOWED_IMAGE_TYPES && mime !in Config.ALLOWED_VIDEO_TYPES
                            && mime in Config.ALLOWED_AUDIO_TYPES
    ensures t == Document <==> mime !in Config.ALLOWED_IMAGE_TYPES + Config.ALLOWED_VIDEO_TYPES
                                                 + Config.ALLOWED_AUDIO_TYPES
  {
    if mime in Config.ALLOWED_IMAGE_TYPES then Image
    else if mime in Config.ALLOWED_VIDEO_TYPES then Video
    else if mime in Config.ALLOWED_AUDIO_TYPES then Audio
    else Document
  }

  /**
   * The three allowed lists are disjoint, so the order of the tests never
   * matters: every allowed type is classified by the list it is in. Note that
   * 'audio/mp4' is audio and 'video/mp4' video.
   */
  lemma AllowedListsDisjoint(mime: string)
    ensures mime in Config.ALLOWED_IMAGE_TYPES ==> GetFileType(mime) == Image
    ensures mime in Config.ALLOWED_VIDEO_TYPES ==> GetFileType(mime) == Video
    ensures mime in Config.ALLOWED_AUDIO_TYPES ==> GetFileType(mime) == Audio
  {
    if mime in Config.ALLOWED_VIDEO_TYPES {
      assert mime[..6] == "video/";
    }
    if mime in Config.ALLOWED_AUDIO_TYPES {
      assert mime[..6] == "audio/";
    }
  }
}
