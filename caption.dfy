/** The caption text of `show_post_image` (mastoinky.py:192-198): the media
    item's description, or a fixed nudge when it has none, followed by the
    author's name. */
module Caption {
  import opened Wrappers

  const Nudge: string := "There could be a beautiful image description here. Maybe next time?"

  const Wrote: string := " - wrote "

  /** The text handed to the renderer. A missing description (`None`) and an
      empty one both fall back to the nudge, as Python's `not caption` does, so
      the caption part is never empty. */
  function MediaDescription(description: Option<string>, author: string): (r: string)
    ensures |r| > |Wrote + author|
    ensures r[|r| - |Wrote + author|..] == Wrote + author
    ensures var caption := r[..|r| - |Wrote + author|];
      if description.Some? && description.value != "" then caption == description.value else caption == Nudge
  {
    var caption := if description.Some? && description.value != "" then description.value else Nudge;
    caption + Wrote + author
  }
}
