/**
 * The comment list under one post: fetched once per post id and shown newest
 * first by reversing the server's order; a comment that was posted
 * successfully is put in front of the list at once, without a refetch.
 */
module CommentSection {
  import opened Maybe
  import opened Api
  import Text

  /** The list in reverse order, as `Array.prototype.reverse` leaves it. */
  function Reverse<T>(s: seq<T>): seq<T>
  {
    if s == [] then [] else Reverse(s[1..]) + [s[0]]
  }

  /** Reversal puts the element `k` places from the front `k` places from the back. */
  lemma {:induction false} ReverseIndex<T>(s: seq<T>)
    ensures |Reverse(s)| == |s|
    ensures forall k :: 0 <= k < |s| ==> Reverse(s)[k] == s[|s| - 1 - k]
  {
    if s != [] {
      ReverseIndex(s[1..]);
      forall k | 0 <= k < |s| ensures Reverse(s)[k] == s[|s| - 1 - k] {
        if k < |s| - 1 {
          assert Reverse(s)[k] == Reverse(s[1..])[k];
        }
      }
    }
  }

  /** A comment appended by the server shows up in front after a refetch. */
  lemma {:induction false} ReverseAppend<T>(s: seq<T>, x: T)
    ensures Reverse(s + [x]) == [x] + Reverse(s)
  {
    if s == [] {
      assert s + [x] == [x];
    } else {
      assert (s + [x])[1..] == s[1..] + [x];
      ReverseAppend(s[1..], x);
    }
  }

  /** Reversing twice gives the server's order back. */
  lemma {:induction false} ReverseReverse<T>(s: seq<T>)
    ensures Reverse(Reverse(s)) == s
  {
    if s != [] {
      ReverseReverse(s[1..]);
      ReverseAppend(Reverse(s[1..]), s[0]);
      assert [s[0]] + s[1..] == s;
    }
  }

  /**
   * White space for `String.prototype.trim`: the ASCII blanks, the line
   * terminators and the Unicode space separators.
   */
  predicate JsSpace(c: char)
  {
    c == ' ' || c == '\t' || c == '\n' || c == '\r' || c == '\U{0B}' || c == '\U{0C}'
    || c == '\U{A0}' || c == '\U{1680}' || ('\U{2000}' <= c <= '\U{200A}')
    || c == '\U{2028}' || c == '\U{2029}' || c == '\U{202F}' || c == '\U{205F}'
    || c == '\U{3000}' || c == '\U{FEFF}'
  }

  /** `!text.trim()`: the text is empty once trimmed. */
  predicate Blank(text: string)
  {
    Text.Strip(text, JsSpace) == []
  }

  /** A post id prop is truthy unless it is missing or `0`. */
  predicate HasPost(postId: Option<int>)
  {
    postId.Some? && postId.value != 0
  }

  class CommentSectionView {
    /** The `postId` prop the component was rendered with. */
    const postId: Option<int>
    var comments: seq<CommentRow>
    var newComment: string

    constructor (postId: Option<int>)
      ensures this.postId == postId && comments == [] && newComment == ""
    {
      this.postId := postId;
      comments, newComment := [], "";
    }

    /** The fetch effect: nothing is asked for without a post id. */
    method FetchEffect() returns (req: Option<Request>)
      ensures req.Some? <==> HasPost(postId)
      ensures req.Some? ==> req.value == ListComments(postId.value)
    {
      req := if HasPost(postId) then Some(ListComments(postId.value)) else None;
    }

    /** The fetch settled: the list shown is the server's list, last comment first. */
    method OnCommentsLoaded(data: seq<CommentRow>)
      modifies this`comments
      ensures |comments| == |data|
      ensures forall k :: 0 <= k < |data| ==> comments[k] == data[|data| - 1 - k]
    {
      comments := Reverse(data);
      ReverseIndex(data);
    }

    /** The fetch failed: the error is only logged, and the list stays as it was. */
    method OnCommentsLoadFailed()
      ensures comments == old(comments) && newComment == old(newComment)
    {
    }

    /** Typing into the comment input. */
    method ChangeInput(text: string)
      modifies this`newComment
      ensures newComment == text
    {
      newComment := text;
    }

    /**
     * `handleSubmit`: nothing is sent without a signed-in user or with a
     * blank comment; otherwise the payload carries the user's id, the prop
     * and the text as typed (untrimmed).
     */
    method HandleSubmit(session: Option<Identity>) returns (payload: Option<CommentPayload>)
      ensures payload.None? <==> session.None? || Text.AllSpace(newComment, JsSpace)
      ensures payload.Some? ==> payload.value == CommentPayload(session.value.id, postId, newComment)
    {
      Text.StripEmptyIffAllSpace(newComment, JsSpace);
      if session.None? || Blank(newComment) {
        payload := None;
      } else {
        payload := Some(CommentPayload(session.value.id, postId, newComment));
      }
    }

    /** The post succeeded: the returned comment goes in front and the input is cleared. */
    method OnCommentPosted(created: CommentRow)
      modifies this`comments, this`newComment
      ensures comments == [created] + old(comments) && newComment == ""
    {
      comments := [created] + comments;
      newComment := "";
    }

    /** The post failed: the error is only logged; the list and the typed text stay, so it can be sent again. */
    method OnCommentPostFailed()
      ensures comments == old(comments) && newComment == old(newComment)
    {
    }
  }

  /**
   * A failed post keeps the draft: submitting again sends the same payload,
   * and the list shown has not changed.
   */
  method RetryAfterFailure(postId: int, server: seq<CommentRow>, text: string, who: Identity)
    returns (first: Option<CommentPayload>, second: Option<CommentPayload>, shown: seq<CommentRow>)
    requires postId != 0 && !Text.AllSpace(text, JsSpace)
    ensures first == second == Some(CommentPayload(who.id, Some(postId), text))
    ensures shown == Reverse(server)
  {
    var view := new CommentSectionView(Some(postId));
    view.OnCommentsLoaded(server);
    view.ChangeInput(text);
    first := view.HandleSubmit(Some(who));
    view.OnCommentPostFailed();
    second := view.HandleSubmit(Some(who));
    shown := view.comments;
    ReverseIndex(server);
  }

  /**
   * The optimistic prepend agrees with a refetch: after loading `server` and
   * posting `created`, the list shown is what reloading `server + [created]`
   * would show, provided the server lists the new comment last.
   */
  method PostAfterLoad(postId: int, server: seq<CommentRow>, created: CommentRow, text: string, who: Identity)
    returns (shown: seq<CommentRow>, sent: Option<CommentPayload>)
    requires postId != 0 && !Text.AllSpace(text, JsSpace)
    ensures sent == Some(CommentPayload(who.id, Some(postId), text))
    ensures shown == Reverse(server + [created])
    ensures |shown| == |server| + 1 && shown[0] == created
  {
    var view := new CommentSectionView(Some(postId));
    view.OnCommentsLoaded(server);
    view.ChangeInput(text);
    sent := view.HandleSubmit(Some(who));
    view.OnCommentPosted(created);
    shown := view.comments;
    ReverseIndex(server);
    ReverseAppend(server, created);
    assert view.comments[1..] == Reverse(server);
  }
}
