/**
  The post validator: a platform's limits, a post, and the ordered list of
  limits the post violates.

  A violation is a datatype value carrying the numbers that the source
  formats into its message. `PostViolations` specifies the list as a
  function; `ValidatePost` builds it the way the source does, pushing onto
  an accumulator after each check and looping over images and videos, and is
  proved to return exactly the specified list.
*/
module Validate {
  import opened Wrappers
  import Tokens

  /** An attached image or video; every field may be missing. */
  datatype Media = Media(sizeMb: Option<real>, format: Option<string>, durationSec: Option<real>)

  /** A post; a missing text is the empty text, missing media lists are empty. */
  datatype Post = Post(text: Option<string>, images: Option<seq<Media>>, videos: Option<seq<Media>>)

  /**
    One platform's entry in the limits table. A missing (or non-numeric)
    bound enforces nothing; a missing format list allows every format.
  */
  datatype PlatformLimits = PlatformLimits(
    maxTextChars: Option<real>,
    maxHashtags: Option<real>,
    maxMentions: Option<real>,
    maxImages: Option<real>,
    maxVideos: Option<real>,
    maxImageSizeMb: Option<real>,
    maxVideoSizeMb: Option<real>,
    maxVideoDurationSec: Option<real>,
    allowedImageFormats: Option<seq<string>>,
    allowedVideoFormats: Option<seq<string>>)

  /** An entry that sets no limit at all. */
  const NoLimits := PlatformLimits(None, None, None, None, None, None, None, None, None, None)

  /** One violated limit; `index` is the zero-based position of the image or video. */
  datatype Violation =
    | TextTooLong(length: nat, max: real)
    | TooManyHashtags(count: nat, max: real)
    | TooManyMentions(count: nat, max: real)
    | TooManyImages(count: nat, max: real)
    | TooManyVideos(count: nat, max: real)
    | ImageTooLarge(index: nat, sizeMb: real, max: real)
    | ImageFormatNotAllowed(index: nat, format: string)
    | VideoTooLarge(index: nat, sizeMb: real, max: real)
    | VideoTooLong(index: nat, durationSec: real, max: real)
    | VideoFormatNotAllowed(index: nat, format: string)

  datatype ValidationResult = ValidationResult(valid: bool, violations: seq<Violation>)

  /** The one error `validatePost` throws. */
  datatype ValidateError = UnknownPlatform(platformKey: string)

  /** `post.text || ''` */
  function TextOf(post: Post): string {
    if post.text.Some? then post.text.value else ""
  }

  /** `post.images || []` */
  function ImagesOf(post: Post): seq<Media> {
    if post.images.Some? then post.images.value else []
  }

  /** `post.videos || []` */
  function VideosOf(post: Post): seq<Media> {
    if post.videos.Some? then post.videos.value else []
  }

  /** `toLowerCase`, on the ASCII letters. */
  function ToLower(s: string): (r: string)
    ensures |r| == |s|
    ensures forall i :: 0 <= i < |s| ==> !('A' <= r[i] <= 'Z')
    ensures forall i :: 0 <= i < |s| && !('A' <= s[i] <= 'Z') ==> r[i] == s[i]
    ensures forall i :: 0 <= i < |s| && 'A' <= s[i] <= 'Z' ==> r[i] == (s[i] as int + 32) as char
  {
    if s == [] then []
    else
      var c := s[0];
      var rest := ToLower(s[1..]);
      var lowered := [if 'A' <= c <= 'Z' then (c as int + 32) as char else c] + rest;
      assert forall i :: 1 <= i < |s| ==> lowered[i] == rest[i - 1] && s[i] == s[1..][i - 1];
      lowered
  }

  /** A size or duration check fires: both the value and the bound are present, and the value exceeds the bound. */
  predicate Exceeds(value: Option<real>, bound: Option<real>) {
    value.Some? && bound.Some? && value.value > bound.value
  }

  /** A format check fires: a non-empty format whose lower-cased form is not in a present allowed list. */
  predicate FormatRejected(format: Option<string>, allowed: Option<seq<string>>) {
    format.Some? && format.value != "" && allowed.Some? && ToLower(format.value) !in allowed.value
  }

  /** A count check fires: the bound is present and the count exceeds it. */
  predicate CountExceeds(count: nat, bound: Option<real>) {
    bound.Some? && count as real > bound.value
  }

  function TextLengthViolations(limits: PlatformLimits, post: Post): seq<Violation> {
    var length := |TextOf(post)|;
    if CountExceeds(length, limits.maxTextChars) then [TextTooLong(length, limits.maxTextChars.value)] else []
  }

  function HashtagViolations(limits: PlatformLimits, post: Post): seq<Violation> {
    var hashtags := Tokens.CountHashtags(TextOf(post));
    if CountExceeds(hashtags, limits.maxHashtags) then [TooManyHashtags(hashtags, limits.maxHashtags.value)] else []
  }

  function MentionViolations(limits: PlatformLimits, post: Post): seq<Violation> {
    var mentions := Tokens.CountMentions(TextOf(post));
    if CountExceeds(mentions, limits.maxMentions) then [TooManyMentions(mentions, limits.maxMentions.value)] else []
  }

  function ImageCountViolations(limits: PlatformLimits, post: Post): seq<Violation> {
    var images := |ImagesOf(post)|;
    if CountExceeds(images, limits.maxImages) then [TooManyImages(images, limits.maxImages.value)] else []
  }

  function VideoCountViolations(limits: PlatformLimits, post: Post): seq<Violation> {
    var videos := |VideosOf(post)|;
    if CountExceeds(videos, limits.maxVideos) then [TooManyVideos(videos, limits.maxVideos.value)] else []
  }

  /** The five post-level checks, in order: text length, hashtags, mentions, image count, video count. */
  function PostLevelViolations(limits: PlatformLimits, post: Post): seq<Violation> {
    TextLengthViolations(limits, post)
    + HashtagViolations(limits, post)
    + MentionViolations(limits, post)
    + ImageCountViolations(limits, post)
    + VideoCountViolations(limits, post)
  }

  /** The checks of the image at index `i`: size, then format. */
  function ImageViolations(limits: PlatformLimits, i: nat, img: Media): seq<Violation> {
    (if Exceeds(img.sizeMb, limits.maxImageSizeMb) then [ImageTooLarge(i, img.sizeMb.value, limits.maxImageSizeMb.value)] else [])
    + (if FormatRejected(img.format, limits.allowedImageFormats) then [ImageFormatNotAllowed(i, img.format.value)] else [])
  }

  /** The checks of the video at index `i`: size, duration, then format. */
  function VideoViolations(limits: PlatformLimits, i: nat, vid: Media): seq<Violation> {
    (if Exceeds(vid.sizeMb, limits.maxVideoSizeMb) then [VideoTooLarge(i, vid.sizeMb.value, limits.maxVideoSizeMb.value)] else [])
    + (if Exceeds(vid.durationSec, limits.maxVideoDurationSec) then [VideoTooLong(i, vid.durationSec.value, limits.maxVideoDurationSec.value)] else [])
    + (if FormatRejected(vid.format, limits.allowedVideoFormats) then [VideoFormatNotAllowed(i, vid.format.value)] else [])
  }

  /** The checks of the first `n` images, image by image. */
  function ImagesViolations(limits: PlatformLimits, images: seq<Media>, n: nat): seq<Violation>
    requires n <= |images|
  {
    if n == 0 then [] else ImagesViolations(limits, images, n - 1) + ImageViolations(limits, n - 1, images[n - 1])
  }

  /** The checks of the first `n` videos, video by video. */
  function VideosViolations(limits: PlatformLimits, videos: seq<Media>, n: nat): seq<Violation>
    requires n <= |videos|
  {
    if n == 0 then [] else VideosViolations(limits, videos, n - 1) + VideoViolations(limits, n - 1, videos[n - 1])
  }

  /** Every violation of `post` under `limits`, in the order the validator reports them. */
  function PostViolations(limits: PlatformLimits, post: Post): seq<Violation> {
    var images := ImagesOf(post);
    var videos := VideosOf(post);
    PostLevelViolations(limits, post)
    + ImagesViolations(limits, images, |images|)
    + VideosViolations(limits, videos, |videos|)
  }

  /** The result for a known platform: valid exactly when nothing is violated. */
  function Evaluate(limits: PlatformLimits, post: Post): (r: ValidationResult)
    ensures r.valid <==> r.violations == []
  {
    var violations := PostViolations(limits, post);
    ValidationResult(|violations| == 0, violations)
  }

  /**
    `validatePost`: look the platform up, then run every check in order,
    appending a violation for each one that fails.
  */
  method ValidatePost(table: map<string, PlatformLimits>, platformKey: string, post: Post)
    returns (r: Result<ValidationResult, ValidateError>)
    ensures r.Failure? <==> platformKey !in table
    ensures r.Failure? ==> r.error == UnknownPlatform(platformKey)
    ensures r.Success? ==> r.value == Evaluate(table[platformKey], post)
    ensures r.Success? ==> (r.value.valid <==> r.value.violations == [])
  {
    if platformKey !in table {
      return Failure(UnknownPlatform(platformKey));
    }
    var platform := table[platformKey];
    var violations: seq<Violation> := [];
    var text := TextOf(post);

    if CountExceeds(|text|, platform.maxTextChars) {
      violations := violations + [TextTooLong(|text|, platform.maxTextChars.value)];
    }
    assert violations == TextLengthViolations(platform, post);

    var hashtags := Tokens.CountHashtags(text);
    if CountExceeds(hashtags, platform.maxHashtags) {
      violations := violations + [TooManyHashtags(hashtags, platform.maxHashtags.value)];
    }
    assert violations == TextLengthViolations(platform, post) + HashtagViolations(platform, post);

    var mentions := Tokens.CountMentions(text);
    if CountExceeds(mentions, platform.maxMentions) {
      violations := violations + [TooManyMentions(mentions, platform.maxMentions.value)];
    }
    assert violations == TextLengthViolations(platform, post) + HashtagViolations(platform, post)
      + MentionViolations(platform, post);

    var images := ImagesOf(post);
    var videos := VideosOf(post);

    if CountExceeds(|images|, platform.maxImages) {
      violations := violations + [TooManyImages(|images|, platform.maxImages.value)];
    }
    assert violations == TextLengthViolations(platform, post) + HashtagViolations(platform, post)
      + MentionViolations(platform, post) + ImageCountViolations(platform, post);

    if CountExceeds(|videos|, platform.maxVideos) {
      violations := violations + [TooManyVideos(|videos|, platform.maxVideos.value)];
    }

    assert violations == PostLevelViolations(platform, post);

    violations := CheckImages(platform, images, violations);
    violations := CheckVideos(platform, videos, violations);
    assert violations == PostViolations(platform, post);
    r := Success(ValidationResult(|violations| == 0, violations));
  }

  /**
    The `images.forEach` callback run on every image in order: the size
    check, then the format check, each appending a violation when it fires.
  */
  method CheckImages(platform: PlatformLimits, images: seq<Media>, violations: seq<Violation>)
    returns (result: seq<Violation>)
    ensures result == violations + ImagesViolations(platform, images, |images|)
  {
    result := violations;
    var i := 0;
    while i < |images|
      invariant 0 <= i <= |images|
      invariant result == violations + ImagesViolations(platform, images, i)
    {
      var img := images[i];
      if Exceeds(img.sizeMb, platform.maxImageSizeMb) {
        result := result + [ImageTooLarge(i, img.sizeMb.value, platform.maxImageSizeMb.value)];
      }
      if FormatRejected(img.format, platform.allowedImageFormats) {
        result := result + [ImageFormatNotAllowed(i, img.format.value)];
      }
      ghost var done, step := ImagesViolations(platform, images, i), ImageViolations(platform, i, img);
      assert result == (violations + done) + step;
      assert (violations + done) + step == violations + (done + step);
      assert ImagesViolations(platform, images, i + 1) == done + step;
      i := i + 1;
    }
  }

  /**
    The `videos.forEach` callback run on every video in order: the size,
    duration and format checks, each appending a violation when it fires.
  */
  method CheckVideos(platform: PlatformLimits, videos: seq<Media>, violations: seq<Violation>)
    returns (result: seq<Violation>)
    ensures result == violations + VideosViolations(platform, videos, |videos|)
  {
    result := violations;
    var j := 0;
    while j < |videos|
      invariant 0 <= j <= |videos|
      invariant result == violations + VideosViolations(platform, videos, j)
    {
      var vid := videos[j];
      if Exceeds(vid.sizeMb, platform.maxVideoSizeMb) {
        result := result + [VideoTooLarge(j, vid.sizeMb.value, platform.maxVideoSizeMb.value)];
      }
      if Exceeds(vid.durationSec, platform.maxVideoDurationSec) {
        result := result + [VideoTooLong(j, vid.durationSec.value, platform.maxVideoDurationSec.value)];
      }
      if FormatRejected(vid.format, platform.allowedVideoFormats) {
        result := result + [VideoFormatNotAllowed(j, vid.format.value)];
      }
      ghost var done, step := VideosViolations(platform, videos, j), VideoViolations(platform, j, vid);
      assert result == (violations + done) + step;
      assert (violations + done) + step == violations + (done + step);
      assert VideosViolations(platform, videos, j + 1) == done + step;
      j := j + 1;
    }
  }
}
