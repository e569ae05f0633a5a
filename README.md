# MastoInky core, modelled in Dafny

MastoInky shows image posts from a Mastodon hashtag timeline on a Raspberry Pi
e-ink display (Pimoroni Inky Impression). Four buttons move through the fetched
posts: A goes to the next post, B to the previous one, C to the next media item
and D to the previous one. Each picture is rendered with a speech bubble that
holds the item's ALT text and the author's name. This project models the logic
in `mastoinky.py` that decides what is shown and proves properties of it.

- `navigation.dfy` (module `Navigation`): the button handler `handle_button`
  over the globals `post_id` and `img_id`, written as the class `Navigator`
  with one method per button. Its methods are proved equal to the pure
  function `Handle`, and lemmas about `Handle` and `Run` give the properties.
  The post list matters only through the number of media items in each post
  (`mediaCounts`). Python's list indexing is modelled exactly: negative
  indices count from the end, and any other index out of range is an
  `IndexError`. That error (`Faulted`) ends the callback, and the globals keep
  the values they were given before it.
- `textfit.dfy` (module `TextFit`): the greedy word wrap `get_wrapped_text` and
  the font-size search `find_font_size`. Both are loops over a measure that
  stands for the font: `measure` replaces `font.getlength` and `textHeight`
  replaces the height of `multiline_textbbox`.
- `strings.dfy` (module `Strings`): Python's `str.split()`, `str.strip()` and
  `sep.join`, with Python's whitespace set, plus the split/join lemmas the wrap
  proofs need.
- `crop.dfy` (module `Crop`): the crop boxes of `crop_center` and
  `crop_max_square`.
- `caption.dfy` (module `Caption`): the caption fallback of `show_post_image`.
- `wrappers.dfy` (module `Wrappers`): `Option`.

Button D steps back only inside a post and only while `img_id > 0`. It
returns before the limit check and before any render. The branch at
mastoinky.py:243-247, which would step into the previous post's last item and
is the only place `post_id` is clamped to 0, can never run
(`PreviousPostBranchUnreachable`). Everywhere else `post_id` wraps, and so does
the model.

## Model

| member | source | states |
|---|---|---|
| Navigation.PyIndex | mastoinky.py:247-248 | a Python list index succeeds exactly for `-n <= i < n`, and then selects element `i`, counted from the end when `i` is negative |
| Navigation.Navigator.constructor | mastoinky.py:62-63 | the globals start at post 0, item 0, with `max_posts` = 20 (while startup shows post 1) |
| Navigation.Navigator.ShowPostImage | mastoinky.py:189-192 | `show_post_image` renders exactly when `-len <= post < len` for the post list and the media index is in the same range for the post it selects, and faults otherwise |
| Navigation.Navigator.CheckLimitsAndShow | mastoinky.py:242-258 | the shared tail of A, B and C (media limit check, post wrap, render) leaves the state and effect that `Settle` defines, including the partial state when a lookup faults |
| Navigation.Navigator.PressA | mastoinky.py:224-227 | button A: post + 1, item 0, then the shared tail; new state and effect are `Handle(…, A)` |
| Navigation.Navigator.PressB | mastoinky.py:228-231 | button B: post - 1, item 0, then the shared tail; new state and effect are `Handle(…, B)` |
| Navigation.Navigator.PressC | mastoinky.py:232-234 | button C: item + 1, then the shared tail; new state and effect are `Handle(…, C)` |
| Navigation.Navigator.PressD | mastoinky.py:235-240 | button D: item - 1 only when positive, post unchanged, returns without a render |
| Navigation.Navigator.HandleButton | mastoinky.py:217-219 | each of the four registered pins selects its button and runs that button's branch |
| Navigation.PostIdInRangeAfterCheck | mastoinky.py:252-256 | after A, B or C passes the limit check, `0 <= post_id < max_posts` |
| Navigation.PressDStaysInPost | mastoinky.py:235-240 | D decrements `img_id` only when positive, never changes `post_id`, never renders |
| Navigation.RepeatedDStopsAtFirstItem | mastoinky.py:235-240 | k presses of D from item i reach item max(i - k, 0) of the same post, so D is idempotent at 0 |
| Navigation.ImgIdStaysNonNegative | mastoinky.py:224-247 | no press, faulting or not, makes `img_id` negative, and none takes the previous-post branch from a non-negative `img_id` |
| Navigation.PreviousPostBranchUnreachable | mastoinky.py:243-247 | from any start with `img_id >= 0`, such as (0, 0), no sequence of presses ever reaches the previous-post branch |
| Navigation.PressCNextMedia | mastoinky.py:232-256 | C on item i of post p gives (p, i+1) with a render, or after the last item (p+1, 0), or (0, 0) past post `max_posts - 1` |
| Navigation.RepeatedCWalksThroughPost | mastoinky.py:232-256 | pressing C from item 0 visits each item of the post in turn, and one press after the last item gives (p+1, 0) |
| Navigation.PressANextPost | mastoinky.py:224-256 | A goes to item 0 of the next post; a next post with no media is skipped once, to the post after it or, past post `max_posts - 1`, to post 0 |
| Navigation.PressBOntoEmptyPostReturns | mastoinky.py:228-256 | B from post p+1 onto a post p with no media ends at item 0 of post p+1 again, so B never gets back past a post without media |
| Navigation.PressAOnLastPostFaults | mastoinky.py:225-248 | A on post `max_posts - 1` reads index `max_posts` before wrapping; with at most `max_posts` posts fetched it faults and leaves (max_posts, 0) |
| Navigation.PressBOnFirstPostWraps | mastoinky.py:228-256 | B on post 0 checks the last fetched post (index -1) and wraps to `max_posts - 1`, or returns to post 0 when that last post has no media |
| Navigation.RenderedIffMediaExists | mastoinky.py:189-192 | after the check, the render succeeds exactly when the state names an existing media item; a post without media faults |
| Navigation.NextPrevPostRoundTrip | mastoinky.py:224-256 | A then B (and B then A) between posts with media returns to the same post at item 0 |
| Strings.SplitYieldsWords | mastoinky.py:86 | every piece of `text.split()` is a non-empty run of non-whitespace |
| Strings.SplitJoin | mastoinky.py:92 | splitting `sep.join(parts)` on a whitespace separator gives the words of the parts in order |
| Strings.StripSpaceWord | mastoinky.py:87 | `f"{line} {word}".strip()` is `word` for an empty line and `line + " " + word` otherwise |
| TextFit.WrapShape | mastoinky.py:85-91 | every line is trimmed, only the first line can be empty, and an empty first line is followed by another |
| TextFit.WrapKeepsWords | mastoinky.py:85-91 | the words of the lines, line after line, are exactly the input words |
| TextFit.WrapFits | mastoinky.py:88-89 | every line with two or more words measures at most `line_length` |
| TextFit.WrapGreedy | mastoinky.py:87-91 | a line is broken only because the next line's first word did not fit behind it |
| TextFit.WrapFirstLine | mastoinky.py:85-91 | the first line is empty exactly when the first word alone is longer than `line_length` |
| TextFit.WrappedTextKeepsWords | mastoinky.py:84-92 | `get_wrapped_text(text).split() == text.split()` |
| TextFit.GetWrappedText | mastoinky.py:84-92 | the loop builds the wrapped text defined by `WrapWords`, which keeps the words of the input |
| TextFit.FindFontSize | mastoinky.py:96-108 | the size is in 2..20 and is the largest size whose wrapped text is lower than the box, or 2 when none is; the text is wrapped at that size |
| Crop.CropCenter | mastoinky.py:113-122 | the box is exactly `crop_width` by `crop_height`, centred to within one pixel, and inside the image when the crop fits |
| Crop.CropMaxSquare | mastoinky.py:126-127 | the box is a square with side `min(w, h)`, inside the image, spanning the shorter side |
| Caption.MediaDescription | mastoinky.py:192-198 | the text is the description, or the nudge when the description is missing or empty, followed by `" - wrote "` and the author |

## Left out

- Mastodon client set-up and the hashtag timeline fetch (mastoinky.py:65-70, 268-270): network I/O. The fetched list is the `mediaCounts` parameter, of any length.
- The three-attempt `urlopen` retry and the 404-slide fallback (mastoinky.py:200-213): network I/O and sleeps. `ShowPostImage` models only the list lookups before them, which sit outside the `try`.
- Pillow image work (mastoinky.py:138-185: open, colour enhance, resize, paste, drawing, multiline text) and the display driver (mastoinky.py:78, 184-185): library and hardware calls. Only the crop-box integers are modelled.
- `interpolate` and the random gradient (mastoinky.py:131-134, 153-156): floating point, `round` and randomness.
- GPIO set-up, interrupt registration with the 250 ms debounce and `signal.pause` (mastoinky.py:33-34, 275-279): hardware and interrupt timing. Presses are modelled as a serial sequence (`Run`).
- The startup render `show_post_image(1, 0)` (mastoinky.py:272) leaves the globals at (0, 0), so the screen shows post 1 while the state says post 0, and the first A press shows post 1 again. The model starts from the globals; `ShowPostImage(1, 0)` gives the startup lookup.
- The `print` calls of the handler: console output only.
- The account-search tool `get-account-ids.py`: an API call and formatting, with no logic of its own. It is not part of this model.
- Font metrics: `font_variant`, `getlength` and `multiline_textbbox` are function parameters (`measureAt`, `measure`, `textHeight`), so the word-wrap and font-size contracts hold for every font, not only Pillow's.
- `str(media_author)`: the display name is taken to be a string already, so `str` is the identity.
