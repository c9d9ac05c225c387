# Social-post limit validator, modelled in Dafny

This project models the post validator of `lib/validate.ts`. The validator
takes a platform key and a post, which has a text, images and videos. It
looks the platform up in a table of limits and throws when the key is
unknown. Otherwise it runs a fixed series of threshold checks and returns
`valid` together with the ordered list of violations:

- text length
- hashtag count
- mention count
- image count
- video count
- size and format of every image
- size, duration and format of every video

Hashtags and mentions are counted by the global regular expressions
`(^|\s)#[\p{L}\p{N}_]+` and `(^|\s)@[\p{L}\p{N}_.-]+`.

The project has four modules:

- `Wrappers` (`wrappers.dfy`): `Option` and `Result`.
- `Tokens` (`tokens.dfy`): the two counters.
  - `MatchAll` models the global match as ECMAScript runs it. A match starts at the leftmost possible position and tries `^` before `\s`. The run of word characters is greedy, and the search resumes where the match ended.
  - `MatchAllCountsTokenStarts` proves that the number of matches is the number of token starts. A token start is a sigil at the start of the text or after whitespace, followed by a word character.
  - The proof holds for any word class that contains neither the sigil nor whitespace. So it does not depend on the ASCII approximation of `\p{L}\p{N}`.
- `Validate` (`validate.dfy`): the data model and the specification function `PostViolations`.
  - The checks report violations as datatype values instead of message strings.
  - The imperative `ValidatePost` pushes onto an accumulator. Its two loops mirror the `forEach` callbacks, and it is proved to return exactly `Evaluate` of the specification.
- `ValidateProperties` (`properties.dfy`): what the violation list means.
  - A field-by-field reference definition of what each check reports, and the theorem that the list holds exactly those violations (`InPostViolations`).
  - An if-and-only-if lemma per check.
  - The strict order of the list and a bound on its length.
  - The behaviour of an entry without limits, of an empty text, and of format lists.

The limits table is a parameter `map<string, PlatformLimits>`. Every bound is
an `Option<real>`: a bound that is missing or not a number is `None`. Every
allowed-format list is an `Option<seq<string>>`.

Format matching: the code (`lib/validate.ts:71`, `:83`) lower-cases only
the post's format and compares it exactly with the configured entries, so an
entry holding an upper-case letter never matches
(`UpperCaseEntriesRejectEveryVideo`).

## Model

| member | source | states |
|---|---|---|
| Tokens.IsWhitespace | lib/validate.ts:27 | `\s` of ECMAScript: the WhiteSpace and LineTerminator code points. It has no contract of its own; `Tokens.HashtagClassSeparated` and `Tokens.MentionClassSeparated` state that no word character is whitespace, which the count theorem relies on. |
| Tokens.IsLetterOrNumber | lib/validate.ts:27 | `\p{L}` or `\p{N}`, limited to ASCII letters and digits (see Left out). It has no contract of its own; `Tokens.HashtagClassSeparated` and `Tokens.MentionClassSeparated` state that the classes built on it hold neither a sigil nor whitespace. |
| Tokens.IsHashtagChar | lib/validate.ts:27 | The class `[\p{L}\p{N}_]`. It has no contract of its own; `Tokens.HashtagClassSeparated` states that it holds neither `#` nor whitespace, `Tokens.CountHashtags` counts the `#` followed by one of its characters, and `Tokens.HashtagExamples` shows `#a#b` counting once. |
| Tokens.IsMentionChar | lib/validate.ts:32 | The class `[\p{L}\p{N}_.-]`. It has no contract of its own; `Tokens.MentionClassSeparated` states that it holds neither `@` nor whitespace, `Tokens.CountMentions` counts the `@` followed by one of its characters, and `Tokens.MentionExamples` shows `.` and `-` inside one mention. |
| Tokens.MatchAll | lib/validate.ts:27 | The array returned by `text.match` with the global flag. It has no contract of its own: `Tokens.MatchAllMatchesPattern` states the shape of its entries, and `Tokens.MatchAllCountsTokenStarts` states its length. |
| Tokens.RunEnd | lib/validate.ts:27 | The greedy `+` of the pattern: every character from the start to the returned end is a word character, and the run stops at the end of the text or at a non-word character. |
| Tokens.MatchAt | lib/validate.ts:27 | One attempt of the pattern at a position: a match ends strictly after where it starts and within the text. |
| Tokens.MatchAtMatchesPattern | lib/validate.ts:27 | A successful attempt covers a string of the form `sigil word+` or `\s sigil word+`, and its run of word characters cannot be extended. Away from position 0, where `^` cannot hold, the match starts with whitespace. |
| Tokens.MatchAllMatchesPattern | lib/validate.ts:27 | Every string the global match returns has the shape of the pattern. Every match after the first, and every match of a search that starts past 0, starts with whitespace. |
| Tokens.FirstMatchAnchored | lib/validate.ts:27 | The `^` alternative: a first match that does not start with whitespace comes from a search that starts at 0 and is a prefix of the text. |
| Tokens.MatchAllCountsTokenStarts | lib/validate.ts:25-33 | For any word class without the sigil or whitespace, the global match returns one match per token start. Searching from a later position counts only the token starts after that position. |
| Tokens.HashtagClassSeparated | lib/validate.ts:27 | The hashtag class `[\p{L}\p{N}_]` contains neither `#` nor whitespace. |
| Tokens.MentionClassSeparated | lib/validate.ts:32 | The mention class `[\p{L}\p{N}_.-]` contains neither `@` nor whitespace. |
| Tokens.CountHashtags | lib/validate.ts:25-28 | The hashtag count equals the number of positions holding `#` at the start or after whitespace and followed by a hashtag character. |
| Tokens.CountMentions | lib/validate.ts:30-33 | The mention count equals the number of positions holding `@` at the start or after whitespace and followed by a mention character. |
| Tokens.HashtagExamples | lib/validate.ts:25-28 | `#a #b` has two hashtags, `#a#b` has one and `# a` has none. |
| Tokens.MentionExamples | lib/validate.ts:30-33 | `mail me@x.io` has no mention and `hi @ann.b-c` has one. |
| Validate.ToLower | lib/validate.ts:71 | Lower-casing keeps the length and maps every upper-case ASCII letter to its lower-case letter. No upper-case letter remains, and no other character changes. |
| Validate.TextOf | lib/validate.ts:40 | A missing text is the empty text. It has no contract of its own; `ValidateProperties.EmptyTextNoTextViolations` states what a missing text yields. |
| Validate.ImagesOf | lib/validate.ts:56 | Missing images are no images. It has no contract of its own; `ValidateProperties.InPostViolations` states that only images in this list are reported. |
| Validate.VideosOf | lib/validate.ts:57 | Missing videos are no videos. It has no contract of its own; `ValidateProperties.InPostViolations` states that only videos in this list are reported. |
| Validate.CountExceeds | lib/validate.ts:42-65 | The guard `typeof max === 'number' && count > max` of the five post-level checks. It has no contract of its own; `ValidateProperties.PostLevelMembers` and the five post-level Iff lemmas (`ValidateProperties.TextTooLongIff` to `ValidateProperties.TooManyVideosIff`) state it field by field: the bound is present and the count is strictly greater. |
| Validate.Exceeds | lib/validate.ts:68-82 | The size and duration guard: both the value and the bound are numbers and the value is strictly greater. It has no contract of its own; `ValidateProperties.ImageTooLargeIff`, `ValidateProperties.VideoTooLargeIff` and `ValidateProperties.VideoTooLongIff` state it field by field, and `ValidateProperties.NoLimitsAcceptsEverything` shows an absent bound never fires. |
| Validate.FormatRejected | lib/validate.ts:71-85 | The format guard: a non-empty format, a present allowed list, and a lower-cased format not in it. It has no contract of its own; `ValidateProperties.ImageFormatIff` and `ValidateProperties.VideoFormatIff` state it field by field, and `ValidateProperties.EmptyAllowedListRejectsEveryImage` and `ValidateProperties.UpperCaseEntriesRejectEveryVideo` state its two edge cases. |
| Validate.TextLengthViolations | lib/validate.ts:42-44 | The text-length check. It has no contract of its own; `ValidateProperties.PostLevelMembers` and `ValidateProperties.TextTooLongIff` state when it reports and with which values. |
| Validate.HashtagViolations | lib/validate.ts:46-49 | The hashtag check. It has no contract of its own; `ValidateProperties.PostLevelMembers` and `ValidateProperties.TooManyHashtagsIff` state when it reports and with which values. |
| Validate.MentionViolations | lib/validate.ts:51-54 | The mention check. It has no contract of its own; `ValidateProperties.PostLevelMembers` and `ValidateProperties.TooManyMentionsIff` state when it reports and with which values. |
| Validate.ImageCountViolations | lib/validate.ts:59-61 | The image-count check. It has no contract of its own; `ValidateProperties.PostLevelMembers` and `ValidateProperties.TooManyImagesIff` state when it reports and with which values. |
| Validate.VideoCountViolations | lib/validate.ts:63-65 | The video-count check. It has no contract of its own; `ValidateProperties.PostLevelMembers` and `ValidateProperties.TooManyVideosIff` state when it reports and with which values. |
| Validate.PostLevelViolations | lib/validate.ts:42-65 | The five post-level checks in push order. It has no contract of its own; `ValidateProperties.PostLevelMembers` states exactly what it holds and `ValidateProperties.PostLevelOrdered` its order. |
| Validate.ImageViolations | lib/validate.ts:68-73 | The body of the `images.forEach` callback: the size check, then the format check. It has no contract of its own; `ValidateProperties.ImageViolationsMembers` and `ValidateProperties.ImageViolationsOrdered` state what it reports and in which order. |
| Validate.VideoViolations | lib/validate.ts:77-85 | The body of the `videos.forEach` callback: size, duration, then format. It has no contract of its own; `ValidateProperties.VideoViolationsMembers` and `ValidateProperties.VideoViolationsOrdered` state what it reports and in which order. |
| Validate.ImagesViolations | lib/validate.ts:67-74 | The `images.forEach` loop as a fold over the first `n` images; `Validate.CheckImages` is proved to append exactly this. It has no contract of its own; `ValidateProperties.InImagesViolations` states its members, `ValidateProperties.ImagesOrdered` their order and `ValidateProperties.ImagesCountBound` their number. |
| Validate.VideosViolations | lib/validate.ts:76-86 | The `videos.forEach` loop as a fold over the first `n` videos; `Validate.CheckVideos` is proved to append exactly this. It has no contract of its own; `ValidateProperties.InVideosViolations` states its members, `ValidateProperties.VideosOrdered` their order and `ValidateProperties.VideosCountBound` their number. |
| Validate.PostViolations | lib/validate.ts:39-86 | The violation list that `validatePost` builds. It has no contract of its own: `ValidateProperties.InPostViolations` states exactly which violations it holds, `ValidateProperties.ViolationsOrdered` their order, and `ValidateProperties.ViolationCountBound` their number. |
| Validate.Evaluate | lib/validate.ts:88-91 | `valid` is true exactly when the violation list is empty. |
| Validate.ValidatePost | lib/validate.ts:35-92 | The call fails exactly when the key is not in the table, and the error names the key. Otherwise it returns normally, however many checks fail, with exactly the specified violation list, and `valid` holds exactly when that list is empty. |
| Validate.CheckImages | lib/validate.ts:67-74 | The image loop appends to the accumulator exactly the checks of every image, image by image in index order. |
| Validate.CheckVideos | lib/validate.ts:76-86 | The video loop appends to the accumulator exactly the checks of every video, video by video in index order. |
| ValidateProperties.PostLevelMembers | lib/validate.ts:42-65 | The five post-level checks report exactly the violations whose bound is present and exceeded by the measured value, and each violation carries that value and the bound. |
| ValidateProperties.ImageViolationsMembers | lib/validate.ts:67-74 | The checks of image `i` report exactly the image violations that name `i` and that the field-by-field reference definition describes. |
| ValidateProperties.VideoViolationsMembers | lib/validate.ts:76-86 | The checks of video `i` report exactly the video violations that name `i` and that the field-by-field reference definition describes. |
| ValidateProperties.InImagesViolations | lib/validate.ts:67-74 | A violation is reported by the image loop exactly when it names an existing image whose check fires. |
| ValidateProperties.InVideosViolations | lib/validate.ts:76-86 | A violation is reported by the video loop exactly when it names an existing video whose check fires. |
| ValidateProperties.InPostViolations | lib/validate.ts:39-86 | The list holds exactly the violations some check reports: a post-level one when its check fires, or a media one that names an attached image or video whose check fires. Nothing else is ever reported. |
| ValidateProperties.TextTooLongIff | lib/validate.ts:42-44 | A text-length violation occurs exactly when the bound is present and the text is longer. |
| ValidateProperties.TooManyHashtagsIff | lib/validate.ts:46-49 | A hashtag violation occurs exactly when the bound is present and the hashtag count exceeds it. |
| ValidateProperties.TooManyMentionsIff | lib/validate.ts:51-54 | A mention violation occurs exactly when the bound is present and the mention count exceeds it. |
| ValidateProperties.TooManyImagesIff | lib/validate.ts:59-61 | An image-count violation occurs exactly when the bound is present and there are more images. |
| ValidateProperties.TooManyVideosIff | lib/validate.ts:63-65 | A video-count violation occurs exactly when the bound is present and there are more videos. |
| ValidateProperties.ImageTooLargeIff | lib/validate.ts:68-70 | Image `i` is reported too large exactly when it exists, its size and the bound are both present, and the size is strictly greater. An absent value or bound is never a violation. |
| ValidateProperties.ImageFormatIff | lib/validate.ts:71-73 | Image `i`'s format is reported exactly when the format is present and non-empty, an allowed list is present, and the lower-cased format is not in it. The violation keeps the original casing. |
| ValidateProperties.VideoTooLargeIff | lib/validate.ts:77-79 | Video `i` is reported too large exactly when its size and the bound are present and the size is strictly greater. |
| ValidateProperties.VideoTooLongIff | lib/validate.ts:80-82 | Video `i` is reported too long exactly when its duration and the bound are present and the duration is strictly greater. |
| ValidateProperties.VideoFormatIff | lib/validate.ts:83-85 | Video `i`'s format is reported exactly when it is present and non-empty, an allowed list is present, and the lower-cased format is not in it. |
| ValidateProperties.NoLimitsNoImageViolations | lib/validate.ts:67-74 | Without limits, no image check fires. |
| ValidateProperties.NoLimitsNoVideoViolations | lib/validate.ts:76-86 | Without limits, no video check fires. |
| ValidateProperties.NoLimitsAcceptsEverything | lib/validate.ts:42-91 | An entry with no limit fields yields no violation and a valid result for every post. |
| ValidateProperties.EmptyTextNoTextViolations | lib/validate.ts:40-54 | A missing or empty text, under non-negative bounds, yields no text-length, hashtag or mention violation. |
| ValidateProperties.PostLevelOrdered | lib/validate.ts:42-65 | The post-level violations come out in the order text, hashtags, mentions, image count, video count. |
| ValidateProperties.ImageViolationsOrdered | lib/validate.ts:67-74 | The checks of one image report its size before its format. |
| ValidateProperties.ImagesOrdered | lib/validate.ts:67-74 | Image violations come out by ascending image index. |
| ValidateProperties.VideoViolationsOrdered | lib/validate.ts:76-86 | The checks of one video report size, then duration, then format. |
| ValidateProperties.VideosOrdered | lib/validate.ts:76-86 | Video violations come out by ascending video index. |
| ValidateProperties.ViolationsOrdered | lib/validate.ts:42-86 | The whole list is strictly ordered: post-level checks, then images by index, then videos by index. In particular no violation appears twice. |
| ValidateProperties.ImagesCountBound | lib/validate.ts:67-74 | Each image yields at most two violations. |
| ValidateProperties.VideosCountBound | lib/validate.ts:76-86 | Each video yields at most three violations. |
| ValidateProperties.ViolationCountBound | lib/validate.ts:42-86 | The list has at most `5 + 2·images + 3·videos` entries. |
| ValidateProperties.EmptyAllowedListRejectsEveryImage | lib/validate.ts:71-73 | A present but empty allowed list rejects every image with a non-empty format. |
| ValidateProperties.UpperCaseEntriesRejectEveryVideo | lib/validate.ts:83-85 | The allowed list is not lower-cased. When every entry holds an upper-case letter, every video with a non-empty format is rejected, whatever its casing. |
| ValidateProperties.ExamplePostLevel | lib/validate.ts:42-65 | For the worked example below, only the hashtag check fires among the post-level checks. |
| ValidateProperties.ExampleImage | lib/validate.ts:67-74 | For the worked example below, the `GIF` image is reported for its format, keeping the original casing. |
| ValidateProperties.ExampleRejectedPost | lib/validate.ts:39-91 | With at most one hashtag and only `png` images allowed, the post `#a #b` with a `GIF` image is invalid. Its list is the hashtag violation, then the format violation with the original casing. |

## Left out

- Loading `limits.json` (`lib/validate.ts:5`, `:23`): the table is a parameter.
- The `!platform` truthiness test (`lib/validate.ts:37`) beyond key presence: a table entry is always a record.
  - A JavaScript lookup also finds inherited properties such as `constructor`. Such keys do not throw in the source but are unknown in the model.
- The exact text of violation messages and the rendering of numbers in them. A violation is a datatype value carrying the index and the numbers.
- Floating-point semantics: sizes, durations and bounds are `real`, so NaN and infinities are not modelled. Only `>` comparisons are performed.
- Dynamic typing: a limit field that is not a number is modelled as `None`, as `typeof … === 'number'` treats it. A non-string format or a non-array allowed list is not modelled.
- Tokens.IsLetterOrNumber: `\p{L}` and `\p{N}` are restricted to ASCII letters and digits. The counting theorem `Tokens.MatchAllCountsTokenStarts` is proved for every word class that excludes the sigil and whitespace.
- Validate.ToLower: only ASCII letters are lower-cased; full Unicode case mapping is not modelled.
- `text.length` counts UTF-16 code units; the model uses the number of characters.
- The module's default export (`lib/validate.ts:94`).
