/** The button handler `handle_button` (mastoinky.py:217-258) and the lookups
    of `show_post_image` it ends in (mastoinky.py:190-192).

    The handler walks a fixed list of fetched posts. Only the number of media
    attachments of each post matters to it, so the list is `mediaCounts`.
    At most `maxPosts` posts are asked for; the fetch may return fewer.
    Python raises `IndexError` when a list index is out of range, and this
    ends the interrupt callback. The globals keep whatever was assigned before
    the bad index. The next button press starts from that state. */
module Navigation {
  import opened Wrappers

  /** `max_posts` (mastoinky.py:38). */
  const MaxPosts: int := 20

  /** The GPIO pins of buttons A, B, C and D (mastoinky.py:28). */
  const Pins: seq<int> := [5, 6, 16, 24]

  datatype Button = A | B | C | D

  /** The globals `post_id` and `img_id`. */
  datatype State = State(postId: int, imgId: int)

  /** Where an `IndexError` is raised: the limit check of the handler
      (mastoinky.py:247-248) or the media lookup of `show_post_image`
      (mastoinky.py:190). */
  datatype FaultSite = AtLimitCheck | AtRender

  /** What a press ends in: the media item is looked up and handed to the
      renderer, button D returns without rendering, or an index faults. */
  datatype Effect = Rendered | Returned | Faulted(site: FaultSite)

  datatype Outcome = Outcome(state: State, effect: Effect)

  /** The outcome of the limit check: the state it leaves, or the state the
      globals hold when its list lookup faulted. */
  datatype Checked = Passed(state: State) | Stuck(state: State)

  /** Python's `xs[i]` on a list of length `n`: a negative index counts from the
      end, anything else out of range raises `IndexError` (`None`). */
  function PyIndex(i: int, n: nat): (r: Option<nat>)
    ensures r.Some? <==> -(n as int) <= i < n
    ensures r.Some? ==> r.value < n && (r.value == i || r.value == n + i)
  {
    if 0 <= i < n then Some(i) else if -(n as int) <= i < 0 then Some(n + i) else None
  }

  /** `LABELS[BUTTONS.index(pin)]` (mastoinky.py:219). */
  function ButtonOf(pin: int): Option<Button> {
    if pin == Pins[0] then Some(A)
    else if pin == Pins[1] then Some(B)
    else if pin == Pins[2] then Some(C)
    else if pin == Pins[3] then Some(D)
    else None
  }

  /** The branch on the label (mastoinky.py:224-238). */
  function Press(s: State, b: Button): State {
    match b
    case A => State(s.postId + 1, 0)
    case B => State(s.postId - 1, 0)
    case C => State(s.postId, s.imgId + 1)
    case D => if s.imgId > 0 then State(s.postId, s.imgId - 1) else s
  }

  /** The media-index limit check (mastoinky.py:243-250). Both branches read
      the post list at the current `post_id`, before the post index is wrapped. */
  function CheckMedia(mediaCounts: seq<nat>, s: State): Checked {
    if s.imgId < 0 then
      var post := if s.postId - 1 < 0 then 0 else s.postId - 1;
      match PyIndex(post, |mediaCounts|)
      case None => Stuck(State(post, s.imgId))
      case Some(k) => Passed(State(post, mediaCounts[k] as int - 1))
    else
      match PyIndex(s.postId, |mediaCounts|)
      case None => Stuck(s)
      case Some(k) => if s.imgId >= mediaCounts[k] then Passed(State(s.postId + 1, 0)) else Passed(s)
  }

  /** The post index wraps around at both ends (mastoinky.py:253-256). */
  function WrapPost(maxPosts: int, s: State): State {
    var p := if s.postId < 0 then maxPosts - 1 else s.postId;
    State(if p >= maxPosts then 0 else p, s.imgId)
  }

  /** `latest_media_post[post_id].media_attachments[media_id]` in
      `show_post_image` (mastoinky.py:190-192). */
  function RenderLookup(mediaCounts: seq<nat>, s: State): Effect {
    match PyIndex(s.postId, |mediaCounts|)
    case None => Faulted(AtRender)
    case Some(k) => if PyIndex(s.imgId, mediaCounts[k]).Some? then Rendered else Faulted(AtRender)
  }

  /** The limit check, the wrap and the render that buttons A, B and C share. */
  function Settle(mediaCounts: seq<nat>, maxPosts: int, s: State): Outcome {
    match CheckMedia(mediaCounts, s)
    case Stuck(t) => Outcome(t, Faulted(AtLimitCheck))
    case Passed(t) =>
      var w := WrapPost(maxPosts, t);
      Outcome(w, RenderLookup(mediaCounts, w))
  }

  /** One call of `handle_button` for the button `b`. */
  function Handle(mediaCounts: seq<nat>, maxPosts: int, s: State, b: Button): Outcome {
    if b == D then Outcome(Press(s, b), Returned)
    else Settle(mediaCounts, maxPosts, Press(s, b))
  }

  /** The state after a sequence of presses. A press that faults leaves the
      globals as they were when the fault was raised. */
  function Run(mediaCounts: seq<nat>, maxPosts: int, s: State, presses: seq<Button>): State {
    if presses == [] then s
    else Handle(mediaCounts, maxPosts, Run(mediaCounts, maxPosts, s, presses[..|presses| - 1]), presses[|presses| - 1]).state
  }

  /** `k` presses of the same button. */
  function Repeat(b: Button, k: nat): (r: seq<Button>)
    ensures |r| == k && forall i :: 0 <= i < k ==> r[i] == b
  {
    if k == 0 then [] else Repeat(b, k - 1) + [b]
  }

  /** The branch that steps back into the previous post (mastoinky.py:243-247):
      a press other than D that leaves `img_id` negative. */
  predicate TakesPreviousPostBranch(s: State, b: Button) {
    b != D && Press(s, b).imgId < 0
  }

  /** The handling of buttons as the GPIO callback runs it, over the globals. */
  class Navigator {
    const mediaCounts: seq<nat>
    const maxPosts: int
    var postId: int
    var imgId: int

    function Current(): State
      reads this
    {
      State(postId, imgId)
    }

    /** The globals start at `post_id = 0`, `img_id = 0` (mastoinky.py:62-63);
        `max_posts` is 20 (mastoinky.py:38). At startup the program shows post 1
        (mastoinky.py:272) without changing the globals, so what is on screen
        is not the state here, and the first A press shows post 1 again. */
    constructor (mediaCounts: seq<nat>)
      ensures this.mediaCounts == mediaCounts && maxPosts == MaxPosts
      ensures Current() == State(0, 0)
    {
      this.mediaCounts := mediaCounts;
      maxPosts := MaxPosts;
      postId, imgId := 0, 0;
    }

    /** The two list lookups of `show_post_image(post, media)`; the handler
        calls it with the globals, the startup code with `(1, 0)`
        (mastoinky.py:272). */
    method ShowPostImage(post: int, media: int) returns (effect: Effect)
      ensures effect == RenderLookup(mediaCounts, State(post, media))
      ensures effect == Rendered <==>
        -|mediaCounts| <= post < |mediaCounts|
        && var k := if post < 0 then |mediaCounts| + post else post;
           -(mediaCounts[k] as int) <= media < mediaCounts[k]
      ensures effect != Rendered ==> effect == Faulted(AtRender)
    {
      var p := PyIndex(post, |mediaCounts|);
      if p.None? {
        return Faulted(AtRender);
      }
      var m := PyIndex(media, mediaCounts[p.value]);
      if m.None? {
        return Faulted(AtRender);
      }
      effect := Rendered;
    }

    /** The tail of the handler after buttons A, B and C (mastoinky.py:242-258). */
    method CheckLimitsAndShow() returns (effect: Effect)
      modifies this
      ensures Outcome(Current(), effect) == Settle(mediaCounts, maxPosts, old(Current()))
    {
      if imgId < 0 {
        postId := postId - 1;
        if postId < 0 {
          postId := 0;
        }
        if postId >= |mediaCounts| {
          return Faulted(AtLimitCheck);
        }
        imgId := mediaCounts[postId] as int - 1;
      } else {
        var post := PyIndex(postId, |mediaCounts|);
        if post.None? {
          return Faulted(AtLimitCheck);
        }
        if imgId >= mediaCounts[post.value] {
          imgId := 0;
          postId := postId + 1;
        }
      }
      if postId < 0 {
        postId := maxPosts - 1;
      }
      if postId >= maxPosts {
        postId := 0;
      }
      effect := ShowPostImage(postId, imgId);
    }

    /** Button A: the next post, from its first media item. */
    method PressA() returns (effect: Effect)
      modifies this
      ensures Outcome(Current(), effect) == Handle(mediaCounts, maxPosts, old(Current()), A)
    {
      postId := postId + 1;
      imgId := 0;
      effect := CheckLimitsAndShow();
    }

    /** Button B: the previous post, from its first media item. */
    method PressB() returns (effect: Effect)
      modifies this
      ensures Outcome(Current(), effect) == Handle(mediaCounts, maxPosts, old(Current()), B)
    {
      postId := postId - 1;
      imgId := 0;
      effect := CheckLimitsAndShow();
    }

    /** Button C: the next media item. */
    method PressC() returns (effect: Effect)
      modifies this
      ensures Outcome(Current(), effect) == Handle(mediaCounts, maxPosts, old(Current()), C)
    {
      imgId := imgId + 1;
      effect := CheckLimitsAndShow();
    }

    /** Button D: the previous media item of the same post, if there is one;
        the handler returns before the limit check and renders nothing. */
    method PressD() returns (effect: Effect)
      modifies this
      ensures Outcome(Current(), effect) == Handle(mediaCounts, maxPosts, old(Current()), D)
      ensures postId == old(postId)
    {
      if imgId > 0 {
        imgId := imgId - 1;
      }
      return Returned;
    }

    /** `handle_button(pin)`: only the four registered pins raise the callback
        (mastoinky.py:275-276). */
    method HandleButton(pin: int) returns (effect: Effect)
      requires pin in Pins
      modifies this
      ensures ButtonOf(pin).Some?
      ensures Outcome(Current(), effect) == Handle(mediaCounts, maxPosts, old(Current()), ButtonOf(pin).value)
    {
      var b := ButtonOf(pin);
      match b.value
      case A => effect := PressA();
      case B => effect := PressB();
      case C => effect := PressC();
      case D => effect := PressD();
    }
  }

  // ---------------------------------------------------------------------------
  // Properties of the handler

  /** After A, B or C has got past the limit check, `post_id` is in
      `0 .. maxPosts - 1`, whether or not the render then faults. */
  lemma PostIdInRangeAfterCheck(mediaCounts: seq<nat>, maxPosts: int, s: State, b: Button)
    requires maxPosts >= 1 && b != D
    requires Handle(mediaCounts, maxPosts, s, b).effect != Faulted(AtLimitCheck)
    ensures 0 <= Handle(mediaCounts, maxPosts, s, b).state.postId < maxPosts
  {
  }

  /** Button D decrements `img_id` only when it is positive, never changes
      `post_id` and never renders. */
  lemma PressDStaysInPost(mediaCounts: seq<nat>, maxPosts: int, s: State)
    ensures var o := Handle(mediaCounts, maxPosts, s, D);
      o.effect == Returned && o.state.postId == s.postId
      && (s.imgId > 0 ==> o.state.imgId == s.imgId - 1)
      && (s.imgId <= 0 ==> o.state == s)
  {
  }

  /** Pressing D `k` times from media item `i` of a post walks back to item
      `max(i - k, 0)` of the same post, so D is idempotent once at 0. */
  lemma {:induction false} RepeatedDStopsAtFirstItem(mediaCounts: seq<nat>, maxPosts: int, s: State, k: nat)
    requires s.imgId >= 0
    ensures Run(mediaCounts, maxPosts, s, Repeat(D, k))
         == State(s.postId, if s.imgId >= k then s.imgId - k else 0)
  {
    if k > 0 {
      var presses := Repeat(D, k);
      assert presses[..k - 1] == Repeat(D, k - 1);
      RepeatedDStopsAtFirstItem(mediaCounts, maxPosts, s, k - 1);
      var before := Run(mediaCounts, maxPosts, s, presses[..k - 1]);
      assert Run(mediaCounts, maxPosts, s, presses) == Handle(mediaCounts, maxPosts, before, D).state;
      PressDStaysInPost(mediaCounts, maxPosts, before);
    }
  }

  /** No press, faulting or not, makes `img_id` negative. */
  lemma ImgIdStaysNonNegative(mediaCounts: seq<nat>, maxPosts: int, s: State, b: Button)
    requires s.imgId >= 0
    ensures Handle(mediaCounts, maxPosts, s, b).state.imgId >= 0
    ensures !TakesPreviousPostBranch(s, b)
  {
  }

  /** From any state with `img_id >= 0`, in particular the start `(0, 0)`, no
      sequence of presses ever takes the previous-post branch: it is dead code. */
  lemma {:induction false} PreviousPostBranchUnreachable(mediaCounts: seq<nat>, maxPosts: int, s: State,
                                                         presses: seq<Button>, k: nat)
    requires s.imgId >= 0 && k < |presses|
    ensures Run(mediaCounts, maxPosts, s, presses[..k]).imgId >= 0
    ensures !TakesPreviousPostBranch(Run(mediaCounts, maxPosts, s, presses[..k]), presses[k])
  {
    if k > 0 {
      assert presses[..k][..k - 1] == presses[..k - 1];
      PreviousPostBranchUnreachable(mediaCounts, maxPosts, s, presses, k - 1);
      ImgIdStaysNonNegative(mediaCounts, maxPosts, Run(mediaCounts, maxPosts, s, presses[..k - 1]), presses[k - 1]);
    }
    ImgIdStaysNonNegative(mediaCounts, maxPosts, Run(mediaCounts, maxPosts, s, presses[..k]), presses[k]);
  }

  /** Button C on media item `i` of post `p`: the next item of the same post,
      or after the last item the first item of the next post, wrapping to post 0
      after post `maxPosts - 1`. */
  lemma PressCNextMedia(mediaCounts: seq<nat>, maxPosts: int, p: int, i: int)
    requires 0 <= p < |mediaCounts| && p < maxPosts && 0 <= i < mediaCounts[p]
    ensures var o := Handle(mediaCounts, maxPosts, State(p, i), C);
      o.state == (if i + 1 < mediaCounts[p] then State(p, i + 1)
                  else if p + 1 < maxPosts then State(p + 1, 0)
                  else State(0, 0))
      && (i + 1 < mediaCounts[p] ==> o.effect == Rendered)
  {
  }

  /** Pressing C repeatedly from the first item of post `p` shows each of its
      items in turn; one press more moves to the first item of the next post. */
  lemma {:induction false} RepeatedCWalksThroughPost(mediaCounts: seq<nat>, maxPosts: int, p: int, k: nat)
    requires 0 <= p < |mediaCounts| && p + 1 < maxPosts && 0 < k <= mediaCounts[p]
    ensures Run(mediaCounts, maxPosts, State(p, 0), Repeat(C, k))
         == if k < mediaCounts[p] then State(p, k) else State(p + 1, 0)
  {
    assert Repeat(C, k)[..k - 1] == Repeat(C, k - 1);
    if k > 1 {
      RepeatedCWalksThroughPost(mediaCounts, maxPosts, p, k - 1);
    }
    PressCNextMedia(mediaCounts, maxPosts, p, k - 1);
  }

  /** Button A goes to the first item of the next post; a next post without
      media is skipped once, to the post after it, or to post 0 when the skipped
      post is post `maxPosts - 1`. */
  lemma PressANextPost(mediaCounts: seq<nat>, maxPosts: int, p: int, i: int)
    requires 0 <= p && p + 1 < |mediaCounts| && p + 1 < maxPosts
    ensures Handle(mediaCounts, maxPosts, State(p, i), A).state
         == if mediaCounts[p + 1] > 0 then State(p + 1, 0)
            else if p + 2 < maxPosts then State(p + 2, 0)
            else State(0, 0)
  {
  }

  /** Button B onto a post without media does not skip it: the limit check
      sends the user forward again, to the first item of the post B started on. */
  lemma PressBOntoEmptyPostReturns(mediaCounts: seq<nat>, maxPosts: int, p: int, i: int)
    requires 0 <= p && p + 1 < |mediaCounts| && p + 1 < maxPosts && mediaCounts[p] == 0
    ensures Handle(mediaCounts, maxPosts, State(p + 1, i), B).state == State(p + 1, 0)
  {
  }

  /** Button A on post `maxPosts - 1` reads the post list at index `maxPosts`
      before wrapping. When the fetch returned at most `maxPosts` posts this
      faults, and the globals are left at `(maxPosts, 0)`. */
  lemma PressAOnLastPostFaults(mediaCounts: seq<nat>, maxPosts: int, i: int)
    requires |mediaCounts| <= maxPosts
    ensures Handle(mediaCounts, maxPosts, State(maxPosts - 1, i), A)
         == Outcome(State(maxPosts, 0), Faulted(AtLimitCheck))
  {
  }

  /** Button B on post 0 reads the post list at index -1, the last fetched
      post, then wraps to post `maxPosts - 1`. If that last post has no media,
      the check instead moves on to post 0 again. */
  lemma PressBOnFirstPostWraps(mediaCounts: seq<nat>, maxPosts: int, i: int)
    requires |mediaCounts| >= 1 && maxPosts >= 1
    ensures Handle(mediaCounts, maxPosts, State(0, i), B).state
         == if mediaCounts[|mediaCounts| - 1] > 0 then State(maxPosts - 1, 0) else State(0, 0)
  {
  }

  /** The render after A, B or C succeeds exactly when the state points at an
      existing media item; otherwise (for example on a post without media) it
      faults. */
  lemma RenderedIffMediaExists(mediaCounts: seq<nat>, maxPosts: int, s: State, b: Button)
    requires maxPosts >= 1 && b != D && s.imgId >= 0
    requires Handle(mediaCounts, maxPosts, s, b).effect != Faulted(AtLimitCheck)
    ensures var t := Handle(mediaCounts, maxPosts, s, b).state;
      Handle(mediaCounts, maxPosts, s, b).effect == Rendered
      <==> t.postId < |mediaCounts| && t.imgId < mediaCounts[t.postId]
  {
  }

  /** Next post then previous post returns to the post, on its first item; and
      the other way round. The media index is not restored. */
  lemma NextPrevPostRoundTrip(mediaCounts: seq<nat>, maxPosts: int, p: int, i: int)
    requires 0 <= p && p + 1 < |mediaCounts| && p + 1 < maxPosts
    requires mediaCounts[p] > 0 && mediaCounts[p + 1] > 0
    ensures Run(mediaCounts, maxPosts, State(p, i), [A, B]) == State(p, 0)
    ensures Run(mediaCounts, maxPosts, State(p + 1, i), [B, A]) == State(p + 1, 0)
  {
    var s, t := State(p, i), State(p + 1, i);
    assert [A, B][..1] == [A] && [A][..0] == [];
    assert Run(mediaCounts, maxPosts, s, [A]) == State(p + 1, 0);
    assert [B, A][..1] == [B] && [B][..0] == [];
    assert Run(mediaCounts, maxPosts, t, [B]) == State(p, 0);
  }
}
