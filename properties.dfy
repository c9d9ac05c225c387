/**
  What the validator promises about its violation list: which violations
  occur (each exactly when its limit is present, its value is present and
  exceeds it), in which order, how many at most, and that an entry without
  limits and an empty text trigger nothing.
*/
module ValidateProperties {
  import opened Wrappers
  import Tokens
  import opened Validate

  predicate IsImageCheck(v: Violation) {
    v.ImageTooLarge? || v.ImageFormatNotAllowed?
  }

  predicate IsVideoCheck(v: Violation) {
    v.VideoTooLarge? || v.VideoTooLong? || v.VideoFormatNotAllowed?
  }

  // ---------------------------------------------------------------------
  // Which violations occur

  /**
    What the five post-level checks report, stated field by field: each
    violation carries the measured value and the bound, and occurs exactly
    when the bound is present and the value exceeds it.
  */
  predicate PostLevelReports(limits: PlatformLimits, post: Post, v: Violation) {
    match v
    case TextTooLong(length, max) =>
      limits.maxTextChars == Some(max) && length == |TextOf(post)| && length as real > max
    case TooManyHashtags(count, max) =>
      limits.maxHashtags == Some(max) && count == Tokens.CountHashtags(TextOf(post)) && count as real > max
    case TooManyMentions(count, max) =>
      limits.maxMentions == Some(max) && count == Tokens.CountMentions(TextOf(post)) && count as real > max
    case TooManyImages(count, max) =>
      limits.maxImages == Some(max) && count == |ImagesOf(post)| && count as real > max
    case TooManyVideos(count, max) =>
      limits.maxVideos == Some(max) && count == |VideosOf(post)| && count as real > max
    case _ => false
  }

  /**
    What the checks of one image report, its index aside: the size when it
    and the bound are present and it exceeds the bound; the format as
    written when it is non-empty, an allowed list is present and the
    lower-cased format is not in it.
  */
  predicate ImageReports(limits: PlatformLimits, img: Media, v: Violation) {
    match v
    case ImageTooLarge(_, size, max) =>
      img.sizeMb == Some(size) && limits.maxImageSizeMb == Some(max) && size > max
    case ImageFormatNotAllowed(_, format) =>
      img.format == Some(format) && format != ""
      && limits.allowedImageFormats.Some? && ToLower(format) !in limits.allowedImageFormats.value
    case _ => false
  }

  /** What the checks of one video report, its index aside: size, duration and format, as for images. */
  predicate VideoReports(limits: PlatformLimits, vid: Media, v: Violation) {
    match v
    case VideoTooLarge(_, size, max) =>
      vid.sizeMb == Some(size) && limits.maxVideoSizeMb == Some(max) && size > max
    case VideoTooLong(_, duration, max) =>
      vid.durationSec == Some(duration) && limits.maxVideoDurationSec == Some(max) && duration > max
    case VideoFormatNotAllowed(_, format) =>
      vid.format == Some(format) && format != ""
      && limits.allowedVideoFormats.Some? && ToLower(format) !in limits.allowedVideoFormats.value
    case _ => false
  }

  /** The post-level checks report exactly the violations `PostLevelReports` describes. */
  lemma {:induction false} PostLevelMembers(limits: PlatformLimits, post: Post, v: Violation)
    ensures v in PostLevelViolations(limits, post) <==> PostLevelReports(limits, post, v)
  {
    var t, h, m := TextLengthViolations(limits, post), HashtagViolations(limits, post), MentionViolations(limits, post);
    var ic, vc := ImageCountViolations(limits, post), VideoCountViolations(limits, post);
    assert PostLevelViolations(limits, post) == t + h + m + ic + vc;
    assert v in PostLevelViolations(limits, post) <==> v in t || v in h || v in m || v in ic || v in vc;
  }

  /** The checks of image `i` report exactly the image violations naming `i` that `ImageReports` describes. */
  lemma {:induction false} ImageViolationsMembers(limits: PlatformLimits, i: nat, img: Media, v: Violation)
    ensures v in ImageViolations(limits, i, img) <==> IsImageCheck(v) && v.index == i && ImageReports(limits, img, v)
  {
  }

  /** The checks of video `i` report exactly the video violations naming `i` that `VideoReports` describes. */
  lemma {:induction false} VideoViolationsMembers(limits: PlatformLimits, i: nat, vid: Media, v: Violation)
    ensures v in VideoViolations(limits, i, vid) <==> IsVideoCheck(v) && v.index == i && VideoReports(limits, vid, v)
  {
  }

  /** The checks of the first `n` images are those of the first `n - 1` followed by those of image `n - 1`. */
  lemma {:induction false} ImagesViolationsSplit(limits: PlatformLimits, images: seq<Media>, n: nat, v: Violation)
    requires 0 < n <= |images|
    ensures v in ImagesViolations(limits, images, n)
      <==> v in ImagesViolations(limits, images, n - 1) || v in ImageViolations(limits, n - 1, images[n - 1])
  {
    assert ImagesViolations(limits, images, n)
      == ImagesViolations(limits, images, n - 1) + ImageViolations(limits, n - 1, images[n - 1]);
  }

  /** A violation is among the first `n` images' exactly when it is among the first `n - 1` or image `n - 1` reports it. */
  lemma {:induction false} ImagesViolationsStep(limits: PlatformLimits, images: seq<Media>, n: nat, v: Violation)
    requires 0 < n <= |images|
    ensures v in ImagesViolations(limits, images, n)
      <==> v in ImagesViolations(limits, images, n - 1)
           || (IsImageCheck(v) && v.index == n - 1 && ImageReports(limits, images[n - 1], v))
  {
    ImagesViolationsSplit(limits, images, n, v);
    ImageViolationsMembers(limits, n - 1, images[n - 1], v);
  }

  /** The checks of the first `n` videos are those of the first `n - 1` followed by those of video `n - 1`. */
  lemma {:induction false} VideosViolationsSplit(limits: PlatformLimits, videos: seq<Media>, n: nat, v: Violation)
    requires 0 < n <= |videos|
    ensures v in VideosViolations(limits, videos, n)
      <==> v in VideosViolations(limits, videos, n - 1) || v in VideoViolations(limits, n - 1, videos[n - 1])
  {
    assert VideosViolations(limits, videos, n)
      == VideosViolations(limits, videos, n - 1) + VideoViolations(limits, n - 1, videos[n - 1]);
  }

  /** A violation is among the first `n` videos' exactly when it is among the first `n - 1` or video `n - 1` reports it. */
  lemma {:induction false} VideosViolationsStep(limits: PlatformLimits, videos: seq<Media>, n: nat, v: Violation)
    requires 0 < n <= |videos|
    ensures v in VideosViolations(limits, videos, n)
      <==> v in VideosViolations(limits, videos, n - 1)
           || (IsVideoCheck(v) && v.index == n - 1 && VideoReports(limits, videos[n - 1], v))
  {
    VideosViolationsSplit(limits, videos, n, v);
    VideoViolationsMembers(limits, n - 1, videos[n - 1], v);
  }

  /** Among the first `n` images, one that `v` names reports `v`. */
  predicate ImageAt(limits: PlatformLimits, images: seq<Media>, n: nat, v: Violation)
    requires n <= |images|
  {
    IsImageCheck(v) && v.index < n && ImageReports(limits, images[v.index], v)
  }

  /** Widening the window by one image adds exactly the violations image `n - 1` reports. */
  lemma {:induction false} ImageAtStep(limits: PlatformLimits, images: seq<Media>, n: nat, v: Violation)
    requires 0 < n <= |images|
    ensures ImageAt(limits, images, n, v)
      <==> ImageAt(limits, images, n - 1, v) || (IsImageCheck(v) && v.index == n - 1 && ImageReports(limits, images[n - 1], v))
  {
  }

  /** A violation is among the first `n` images' exactly when it names one of them and that image reports it. */
  lemma {:induction false} InImagesViolations(limits: PlatformLimits, images: seq<Media>, n: nat, v: Violation)
    requires n <= |images|
    ensures v in ImagesViolations(limits, images, n) <==> ImageAt(limits, images, n, v)
  {
    if n > 0 {
      InImagesViolations(limits, images, n - 1, v);
      ImagesViolationsStep(limits, images, n, v);
      ImageAtStep(limits, images, n, v);
    }
  }

  /** Among the first `n` videos, one that `v` names reports `v`. */
  predicate VideoAt(limits: PlatformLimits, videos: seq<Media>, n: nat, v: Violation)
    requires n <= |videos|
  {
    IsVideoCheck(v) && v.index < n && VideoReports(limits, videos[v.index], v)
  }

  /** Widening the window by one video adds exactly the violations video `n - 1` reports. */
  lemma {:induction false} VideoAtStep(limits: PlatformLimits, videos: seq<Media>, n: nat, v: Violation)
    requires 0 < n <= |videos|
    ensures VideoAt(limits, videos, n, v)
      <==> VideoAt(limits, videos, n - 1, v) || (IsVideoCheck(v) && v.index == n - 1 && VideoReports(limits, videos[n - 1], v))
  {
  }

  /** A violation is among the first `n` videos' exactly when it names one of them and that video reports it. */
  lemma {:induction false} InVideosViolations(limits: PlatformLimits, videos: seq<Media>, n: nat, v: Violation)
    requires n <= |videos|
    ensures v in VideosViolations(limits, videos, n) <==> VideoAt(limits, videos, n, v)
  {
    if n > 0 {
      InVideosViolations(limits, videos, n - 1, v);
      VideosViolationsStep(limits, videos, n, v);
      VideoAtStep(limits, videos, n, v);
    }
  }

  /**
    The violation list holds exactly the violations some check reports: a
    post-level violation when its check fires, an image or video violation
    when it names an attached image or video whose check fires. Nothing else
    is ever reported.
  */
  lemma {:induction false} InPostViolations(limits: PlatformLimits, post: Post, v: Violation)
    ensures v in PostViolations(limits, post)
      <==> || PostLevelReports(limits, post, v)
           || (IsImageCheck(v) && v.index < |ImagesOf(post)| && ImageReports(limits, ImagesOf(post)[v.index], v))
           || (IsVideoCheck(v) && v.index < |VideosOf(post)| && VideoReports(limits, VideosOf(post)[v.index], v))
  {
    var images, videos := ImagesOf(post), VideosOf(post);
    var level, ofImages, ofVideos := PostLevelViolations(limits, post),
      ImagesViolations(limits, images, |images|), VideosViolations(limits, videos, |videos|);
    assert v in PostViolations(limits, post) <==> v in level || v in ofImages || v in ofVideos;
    PostLevelMembers(limits, post, v);
    InImagesViolations(limits, images, |images|, v);
    InVideosViolations(limits, videos, |videos|, v);
  }

  /** The text-length check fires exactly when the bound is present and the text is longer. */
  lemma {:induction false} TextTooLongIff(limits: PlatformLimits, post: Post, n: nat, max: real)
    ensures TextTooLong(n, max) in PostViolations(limits, post)
      <==> limits.maxTextChars == Some(max) && n == |TextOf(post)| && n as real > max
  {
    InPostViolations(limits, post, TextTooLong(n, max));
  }

  /** The hashtag check fires exactly when the bound is present and the hashtag count exceeds it. */
  lemma {:induction false} TooManyHashtagsIff(limits: PlatformLimits, post: Post, n: nat, max: real)
    ensures TooManyHashtags(n, max) in PostViolations(limits, post)
      <==> limits.maxHashtags == Some(max) && n == Tokens.CountHashtags(TextOf(post)) && n as real > max
  {
    InPostViolations(limits, post, TooManyHashtags(n, max));
  }

  /** The mention check fires exactly when the bound is present and the mention count exceeds it. */
  lemma {:induction false} TooManyMentionsIff(limits: PlatformLimits, post: Post, n: nat, max: real)
    ensures TooManyMentions(n, max) in PostViolations(limits, post)
      <==> limits.maxMentions == Some(max) && n == Tokens.CountMentions(TextOf(post)) && n as real > max
  {
    InPostViolations(limits, post, TooManyMentions(n, max));
  }

  /** The image-count check fires exactly when the bound is present and there are more images. */
  lemma {:induction false} TooManyImagesIff(limits: PlatformLimits, post: Post, n: nat, max: real)
    ensures TooManyImages(n, max) in PostViolations(limits, post)
      <==> limits.maxImages == Some(max) && n == |ImagesOf(post)| && n as real > max
  {
    InPostViolations(limits, post, TooManyImages(n, max));
  }

  /** The video-count check fires exactly when the bound is present and there are more videos. */
  lemma {:induction false} TooManyVideosIff(limits: PlatformLimits, post: Post, n: nat, max: real)
    ensures TooManyVideos(n, max) in PostViolations(limits, post)
      <==> limits.maxVideos == Some(max) && n == |VideosOf(post)| && n as real > max
  {
    InPostViolations(limits, post, TooManyVideos(n, max));
  }

  /**
    Image `i` is reported too large exactly when the bound and its size are
    both present and the size exceeds the bound; an absent value or bound is
    never a violation.
  */
  lemma {:induction false} ImageTooLargeIff(limits: PlatformLimits, post: Post, i: nat, size: real, max: real)
    ensures ImageTooLarge(i, size, max) in PostViolations(limits, post)
      <==> i < |ImagesOf(post)| && ImagesOf(post)[i].sizeMb == Some(size)
           && limits.maxImageSizeMb == Some(max) && size > max
  {
    InPostViolations(limits, post, ImageTooLarge(i, size, max));
  }

  /**
    The format of image `i` is reported exactly when it is non-empty, a list
    of allowed formats is present, and the lower-cased format is not in that
    list; the violation keeps the format as written.
  */
  lemma {:induction false} ImageFormatIff(limits: PlatformLimits, post: Post, i: nat, format: string)
    ensures ImageFormatNotAllowed(i, format) in PostViolations(limits, post)
      <==> i < |ImagesOf(post)| && ImagesOf(post)[i].format == Some(format) && format != ""
           && limits.allowedImageFormats.Some? && ToLower(format) !in limits.allowedImageFormats.value
  {
    InPostViolations(limits, post, ImageFormatNotAllowed(i, format));
  }

  /** Video `i` is reported too large exactly when the bound and its size are present and the size exceeds it. */
  lemma {:induction false} VideoTooLargeIff(limits: PlatformLimits, post: Post, i: nat, size: real, max: real)
    ensures VideoTooLarge(i, size, max) in PostViolations(limits, post)
      <==> i < |VideosOf(post)| && VideosOf(post)[i].sizeMb == Some(size)
           && limits.maxVideoSizeMb == Some(max) && size > max
  {
    InPostViolations(limits, post, VideoTooLarge(i, size, max));
  }

  /** Video `i` is reported too long exactly when the bound and its duration are present and the duration exceeds it. */
  lemma {:induction false} VideoTooLongIff(limits: PlatformLimits, post: Post, i: nat, duration: real, max: real)
    ensures VideoTooLong(i, duration, max) in PostViolations(limits, post)
      <==> i < |VideosOf(post)| && VideosOf(post)[i].durationSec == Some(duration)
           && limits.maxVideoDurationSec == Some(max) && duration > max
  {
    InPostViolations(limits, post, VideoTooLong(i, duration, max));
  }

  /** The format of video `i` is reported exactly as for images, against the allowed video formats. */
  lemma {:induction false} VideoFormatIff(limits: PlatformLimits, post: Post, i: nat, format: string)
    ensures VideoFormatNotAllowed(i, format) in PostViolations(limits, post)
      <==> i < |VideosOf(post)| && VideosOf(post)[i].format == Some(format) && format != ""
           && limits.allowedVideoFormats.Some? && ToLower(format) !in limits.allowedVideoFormats.value
  {
    InPostViolations(limits, post, VideoFormatNotAllowed(i, format));
  }

  // ---------------------------------------------------------------------
  // An entry without limits, an empty text

  lemma {:induction false} NoLimitsNoImageViolations(images: seq<Media>, n: nat)
    requires n <= |images|
    ensures ImagesViolations(NoLimits, images, n) == []
  {
    if n > 0 {
      NoLimitsNoImageViolations(images, n - 1);
    }
  }

  lemma {:induction false} NoLimitsNoVideoViolations(videos: seq<Media>, n: nat)
    requires n <= |videos|
    ensures VideosViolations(NoLimits, videos, n) == []
  {
    if n > 0 {
      NoLimitsNoVideoViolations(videos, n - 1);
    }
  }

  /** Every check is guarded by its bound, so an entry without bounds accepts every post. */
  lemma {:induction false} NoLimitsAcceptsEverything(post: Post)
    ensures PostViolations(NoLimits, post) == []
    ensures Evaluate(NoLimits, post).valid
  {
    NoLimitsNoImageViolations(ImagesOf(post), |ImagesOf(post)|);
    NoLimitsNoVideoViolations(VideosOf(post), |VideosOf(post)|);
  }

  /**
    A missing or empty text counts as length 0 with no hashtags or mentions,
    so it violates no text bound that is non-negative.
  */
  lemma {:induction false} EmptyTextNoTextViolations(limits: PlatformLimits, post: Post)
    requires post.text == None || post.text == Some("")
    requires limits.maxTextChars.Some? ==> limits.maxTextChars.value >= 0.0
    requires limits.maxHashtags.Some? ==> limits.maxHashtags.value >= 0.0
    requires limits.maxMentions.Some? ==> limits.maxMentions.value >= 0.0
    ensures forall v <- PostViolations(limits, post) ::
      !v.TextTooLong? && !v.TooManyHashtags? && !v.TooManyMentions?
  {
    forall v <- PostViolations(limits, post)
      ensures !v.TextTooLong? && !v.TooManyHashtags? && !v.TooManyMentions?
    {
      InPostViolations(limits, post, v);
    }
  }

  // ---------------------------------------------------------------------
  // Order and number of the violations

  /** The part of the validation that reports a violation: the five post-level checks, then images, then videos. */
  function Group(v: Violation): nat {
    match v
    case TextTooLong(_, _) => 0
    case TooManyHashtags(_, _) => 1
    case TooManyMentions(_, _) => 2
    case TooManyImages(_, _) => 3
    case TooManyVideos(_, _) => 4
    case ImageTooLarge(_, _, _) => 5
    case ImageFormatNotAllowed(_, _) => 5
    case VideoTooLarge(_, _, _) => 6
    case VideoTooLong(_, _, _) => 6
    case VideoFormatNotAllowed(_, _) => 6
  }

  /** The image or video index of a per-media violation; 0 for the others. */
  function Position(v: Violation): nat {
    if IsImageCheck(v) || IsVideoCheck(v) then v.index else 0
  }

  /** The rank of the check within one image or video: size, then duration, then format. */
  function Step(v: Violation): nat {
    match v
    case ImageFormatNotAllowed(_, _) => 1
    case VideoTooLong(_, _, _) => 1
    case VideoFormatNotAllowed(_, _) => 2
    case _ => 0
  }

  /** `a` is reported before `b`: lexicographic on group, index and step. */
  predicate Before(a: Violation, b: Violation) {
    || Group(a) < Group(b)
    || (Group(a) == Group(b) && Position(a) < Position(b))
    || (Group(a) == Group(b) && Position(a) == Position(b) && Step(a) < Step(b))
  }

  predicate Ordered(vs: seq<Violation>) {
    forall j, k {:trigger Before(vs[j], vs[k])} :: 0 <= j < k < |vs| ==> Before(vs[j], vs[k])
  }

  /** Every violation of `vs` belongs to group `g` and names an image or video before `p`. */
  predicate InGroupBefore(vs: seq<Violation>, g: nat, p: nat) {
    forall v <- vs :: Group(v) == g && Position(v) < p
  }

  /** Every violation of `vs` belongs to group `g` and names the image or video `p`. */
  predicate InGroupAt(vs: seq<Violation>, g: nat, p: nat) {
    forall v <- vs :: Group(v) == g && Position(v) == p
  }

  lemma {:induction false} OrderedAppend(a: seq<Violation>, b: seq<Violation>)
    requires Ordered(a) && Ordered(b)
    requires forall x, y :: x in a && y in b ==> Before(x, y)
    ensures Ordered(a + b)
  {
    forall j, k | 0 <= j < k < |a + b|
      ensures Before((a + b)[j], (a + b)[k])
    {
      if k < |a| {
        assert (a + b)[j] == a[j] && (a + b)[k] == a[k];
      } else if j < |a| {
        assert (a + b)[j] in a && (a + b)[k] in b;
      } else {
        assert (a + b)[j] == b[j - |a|] && (a + b)[k] == b[k - |a|];
      }
    }
  }

  /** Appending violations of a later group keeps a list ordered. */
  lemma {:induction false} AppendLaterGroup(a: seq<Violation>, b: seq<Violation>, g: nat)
    requires Ordered(a) && Ordered(b)
    requires forall x <- a :: Group(x) < g
    requires forall y <- b :: Group(y) == g
    ensures Ordered(a + b)
    ensures forall x <- a + b :: Group(x) <= g
  {
    OrderedAppend(a, b);
  }

  /** Appending violations of a later image or video of the same group keeps a list ordered. */
  lemma {:induction false} AppendLaterPosition(a: seq<Violation>, b: seq<Violation>, g: nat, p: nat)
    requires Ordered(a) && Ordered(b)
    requires InGroupBefore(a, g, p)
    requires InGroupAt(b, g, p)
    ensures Ordered(a + b)
    ensures InGroupBefore(a + b, g, p + 1)
  {
    OrderedAppend(a, b);
  }

  lemma {:induction false} PostLevelOrdered(limits: PlatformLimits, post: Post)
    ensures Ordered(PostLevelViolations(limits, post))
    ensures forall v <- PostLevelViolations(limits, post) :: Group(v) < 5
  {
    var t, h, m := TextLengthViolations(limits, post), HashtagViolations(limits, post), MentionViolations(limits, post);
    var ic, vc := ImageCountViolations(limits, post), VideoCountViolations(limits, post);
    AppendLaterGroup(t, h, 1);
    AppendLaterGroup(t + h, m, 2);
    AppendLaterGroup(t + h + m, ic, 3);
    AppendLaterGroup(t + h + m + ic, vc, 4);
    assert PostLevelViolations(limits, post) == t + h + m + ic + vc;
  }

  /** The checks of image `i` come out in order and all name `i`. */
  lemma {:induction false} ImageViolationsOrdered(limits: PlatformLimits, i: nat, img: Media)
    ensures Ordered(ImageViolations(limits, i, img))
    ensures InGroupAt(ImageViolations(limits, i, img), 5, i)
  {
  }

  lemma {:induction false} ImagesOrdered(limits: PlatformLimits, images: seq<Media>, n: nat)
    requires n <= |images|
    ensures Ordered(ImagesViolations(limits, images, n))
    ensures InGroupBefore(ImagesViolations(limits, images, n), 5, n)
  {
    if n > 0 {
      ImagesOrdered(limits, images, n - 1);
      ImageViolationsOrdered(limits, n - 1, images[n - 1]);
      AppendLaterPosition(ImagesViolations(limits, images, n - 1), ImageViolations(limits, n - 1, images[n - 1]), 5, n - 1);
    }
  }

  /** The checks of video `i` come out in order and all name `i`. */
  lemma {:induction false} VideoViolationsOrdered(limits: PlatformLimits, i: nat, vid: Media)
    ensures Ordered(VideoViolations(limits, i, vid))
    ensures InGroupAt(VideoViolations(limits, i, vid), 6, i)
  {
  }

  lemma {:induction false} VideosOrdered(limits: PlatformLimits, videos: seq<Media>, n: nat)
    requires n <= |videos|
    ensures Ordered(VideosViolations(limits, videos, n))
    ensures InGroupBefore(VideosViolations(limits, videos, n), 6, n)
  {
    if n > 0 {
      VideosOrdered(limits, videos, n - 1);
      VideoViolationsOrdered(limits, n - 1, videos[n - 1]);
      AppendLaterPosition(VideosViolations(limits, videos, n - 1), VideoViolations(limits, n - 1, videos[n - 1]), 6, n - 1);
    }
  }

  /**
    The violations come out strictly in order: text, hashtags, mentions,
    image count, video count, then every image by ascending index (size
    before format), then every video by ascending index (size, duration,
    format). In particular no violation is reported twice.
  */
  lemma {:induction false} ViolationsOrdered(limits: PlatformLimits, post: Post)
    ensures Ordered(PostViolations(limits, post))
  {
    var images, videos := ImagesOf(post), VideosOf(post);
    PostLevelOrdered(limits, post);
    ImagesOrdered(limits, images, |images|);
    VideosOrdered(limits, videos, |videos|);
    AppendLaterGroup(PostLevelViolations(limits, post), ImagesViolations(limits, images, |images|), 5);
    AppendLaterGroup(PostLevelViolations(limits, post) + ImagesViolations(limits, images, |images|),
                  VideosViolations(limits, videos, |videos|), 6);
  }

  lemma {:induction false} ImagesCountBound(limits: PlatformLimits, images: seq<Media>, n: nat)
    requires n <= |images|
    ensures |ImagesViolations(limits, images, n)| <= 2 * n
  {
    if n > 0 {
      ImagesCountBound(limits, images, n - 1);
    }
  }

  lemma {:induction false} VideosCountBound(limits: PlatformLimits, videos: seq<Media>, n: nat)
    requires n <= |videos|
    ensures |VideosViolations(limits, videos, n)| <= 3 * n
  {
    if n > 0 {
      VideosCountBound(limits, videos, n - 1);
    }
  }

  /** At most one violation per post-level check, two per image and three per video. */
  lemma {:induction false} ViolationCountBound(limits: PlatformLimits, post: Post)
    ensures |PostViolations(limits, post)| <= 5 + 2 * |ImagesOf(post)| + 3 * |VideosOf(post)|
  {
    ImagesCountBound(limits, ImagesOf(post), |ImagesOf(post)|);
    VideosCountBound(limits, VideosOf(post), |VideosOf(post)|);
  }

  // ---------------------------------------------------------------------
  // Format matching

  /** A present but empty list of allowed image formats rejects every image with a non-empty format. */
  lemma {:induction false} EmptyAllowedListRejectsEveryImage(limits: PlatformLimits, post: Post, i: nat, format: string)
    requires limits.allowedImageFormats == Some([])
    requires i < |ImagesOf(post)| && ImagesOf(post)[i].format == Some(format) && format != ""
    ensures ImageFormatNotAllowed(i, format) in PostViolations(limits, post)
  {
    ImageFormatIff(limits, post, i, format);
  }

  /**
    Only the post's format is lower-cased, never the configured list: when
    every allowed video format holds an upper-case letter, no format can
    match, so every video with a non-empty format is reported, whatever its
    casing.
  */
  lemma {:induction false} UpperCaseEntriesRejectEveryVideo(limits: PlatformLimits, post: Post, i: nat, format: string)
    requires limits.allowedVideoFormats.Some?
    requires forall e <- limits.allowedVideoFormats.value :: exists k :: 0 <= k < |e| && 'A' <= e[k] <= 'Z'
    requires i < |VideosOf(post)| && VideosOf(post)[i].format == Some(format) && format != ""
    ensures VideoFormatNotAllowed(i, format) in PostViolations(limits, post)
  {
    VideoFormatIff(limits, post, i, format);
  }

  /** The limits of the worked example: at most 280 characters and one hashtag, only `png` images. */
  const ExampleLimits := NoLimits.(maxTextChars := Some(280.0), maxHashtags := Some(1.0), allowedImageFormats := Some(["png"]))

  /** The post of the worked example: two hashtags and one `GIF` image. */
  const ExamplePost := Post(Some("#a #b"), Some([Media(None, Some("GIF"), None)]), None)

  /** In the worked example, only the hashtag check of the post-level checks fires. */
  lemma {:induction false} ExamplePostLevel()
    ensures PostLevelViolations(ExampleLimits, ExamplePost) == [TooManyHashtags(2, 1.0)]
  {
    Tokens.HashtagExamples();
    assert Tokens.CountMentions("#a #b") == 0;
  }

  /** In the worked example, the image is reported for its format, with the original casing. */
  lemma {:induction false} ExampleImage()
    ensures ImagesViolations(ExampleLimits, ImagesOf(ExamplePost), 1) == [ImageFormatNotAllowed(0, "GIF")]
  {
    assert ToLower("GIF") == "gif";
  }

  /**
    A worked example: with at most one hashtag and 280 characters, a short
    post with two hashtags and an image in a format outside the allowed list
    is rejected for both, the post-level check first.
  */
  lemma {:induction false} ExampleRejectedPost()
    ensures Evaluate(ExampleLimits, ExamplePost)
      == ValidationResult(false, [TooManyHashtags(2, 1.0), ImageFormatNotAllowed(0, "GIF")])
  {
    ExamplePostLevel();
    ExampleImage();
  }
}
