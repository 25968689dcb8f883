/** The application constants the endpoints read (all times in seconds). */
module Config {

  /** Lifetime of an access token: seven days. */
  const JWT_EXPIRY: int := 3600 * 24 * 7

  /** Lifetime of a refresh token: thirty days. */
  const REFRESH_TOKEN_EXPIRY: int := 3600 * 24 * 30

  /** Lifetime of a story: one day. */
  const STORY_EXPIRY_TIME: int := 24 * 60 * 60

  /** How long after sending a message may still be edited or deleted for everyone. */
  const MESSAGE_EDIT_TIME_LIMIT: int := 5 * 60

  const DEFAULT_PAGE_SIZE: int := 20
  const MAX_PAGE_SIZE: int := 100

  /** Initial lifetime of a vanish message: thirty days from sending. */
  const VANISH_INITIAL_LIFETIME: int := 30 * 24 * 60 * 60

  /** Remaining lifetime of a vanish message once it has been read: one hour. */
  const VANISH_READ_LIFETIME: int := 3600

  const ALLOWED_IMAGE_TYPES: seq<string> := ["image/jpeg", "image/png", "image/gif", "image/webp"]
  const ALLOWED_VIDEO_TYPES: seq<string> := ["video/mp4", "video/avi", "video/quicktime", "video/webm"]
  const ALLOWED_AUDIO_TYPES: seq<string> := ["audio/mpeg", "audio/wav", "audio/ogg", "audio/mp4"]
}
