/** The comment thread under an album (src/app/eventos/Comments.tsx). The
    server always returns the whole list; the page shows a prefix of it that
    starts at 4 comments and grows by 3 on each "load more". Posting, editing
    and deleting go to the server and then reload the list, which resets the
    window. Network answers are parameters. */
module Comments {
  import opened Common

  datatype Comment = Comment(id: string, user: string, text: string, createdAt: int)

  /** The outcome of a request: a parsed body, or the message of the error thrown. */
  datatype Outcome<T> = Loaded(body: T) | Failed(message: string)

  const BatchSize: nat := 3
  const InitialDisplayCount: nat := 4
  const MaxCommentLength: nat := 500

  const EmptyAlert: string := "O comentário não pode estar vazio."
  const TooLongAlert: string := "O comentário não pode ter mais de 500 caracteres."
  const LoginAlert: string := "Você precisa estar logado para comentar."
  const LoadUnknownError: string := "Erro desconhecido ao carregar os comentários."
  const ReloadError: string := "Erro ao recarregar os comentários."
  const SubmitUnknownError: string := "Erro desconhecido ao enviar o comentário."
  const EditUnknownError: string := "Erro desconhecido ao editar o comentário."
  const DeleteUnknownError: string := "Erro desconhecido ao excluir o comentário."
  const AnonymousName: string := "Usuário Anônimo"

  /** `err.message || fallback`. */
  function MessageOr(message: string, fallback: string): string
  {
    if message != "" then message else fallback
  }

  // ---------------------------------------------------------------------------
  // The visible window

  /** `data.slice(0, INITIAL_DISPLAY_COUNT)`. */
  function InitialWindow(data: seq<Comment>): (r: seq<Comment>)
    ensures |r| == Min(|data|, InitialDisplayCount)
    ensures r == data[..|r|]
  {
    Slice(data, 0, InitialDisplayCount)
  }

  /** `comments.slice(currentLength, currentLength + COMMENTS_BATCH_SIZE)`. */
  function NextBatch(comments: seq<Comment>, displayed: seq<Comment>): (r: seq<Comment>)
    ensures |r| <= BatchSize
    ensures |displayed| <= |comments| ==>
      |r| == Min(BatchSize, |comments| - |displayed|) && r == comments[|displayed|..|displayed| + |r|]
    ensures |displayed| >= |comments| ==> r == []
  {
    Slice(comments, |displayed|, |displayed| + BatchSize)
  }

  /** The first window is a prefix of the list, four long or the whole list. */
  lemma InitialWindowIsPrefix(data: seq<Comment>)
    ensures InitialWindow(data) <= data
    ensures |InitialWindow(data)| == Min(InitialDisplayCount, |data|)
  {
  }

  /** Loading more keeps the window a prefix and grows it by min(3, remaining). */
  lemma NextBatchExtendsPrefix(comments: seq<Comment>, displayed: seq<Comment>)
    requires displayed <= comments
    ensures displayed + NextBatch(comments, displayed) == comments[..Min(|displayed| + BatchSize, |comments|)]
    ensures |NextBatch(comments, displayed)| == Min(BatchSize, |comments| - |displayed|)
  {
    var next := NextBatch(comments, displayed);
    var m := Min(|displayed| + BatchSize, |comments|);
    assert displayed == comments[..|displayed|];
    assert comments[..m] == comments[..|displayed|] + comments[|displayed|..m];
  }

  /** `k` calls of "load more" after the first window show min(4 + 3k, n) comments. */
  lemma {:induction false} WindowAfterLoads(comments: seq<Comment>, k: nat)
    ensures LoadMoreTimes(comments, k) == comments[..Min(InitialDisplayCount + BatchSize * k, |comments|)]
  {
    if k == 0 {
      InitialWindowIsPrefix(comments);
    } else {
      WindowAfterLoads(comments, k - 1);
      NextBatchExtendsPrefix(comments, LoadMoreTimes(comments, k - 1));
    }
  }

  function LoadMoreTimes(comments: seq<Comment>, k: nat): seq<Comment>
  {
    if k == 0 then InitialWindow(comments)
    else
      var d := LoadMoreTimes(comments, k - 1);
      d + NextBatch(comments, d)
  }

  // ---------------------------------------------------------------------------
  // Local checks before a request

  datatype Check = Accepted(text: string) | Rejected(alert: string)

  /** The checks of `handleCommentEdit`: blank after trimming, then over 500
      characters; an accepted edit sends the trimmed text. */
  function CheckEdit(text: string): (r: Check)
    ensures r.Accepted? ==> |r.text| <= MaxCommentLength
    ensures r.Accepted? ==> r.text == Trim(text) && r.text != ""
  {
    if Trim(text) == "" then Rejected(EmptyAlert)
    else if |text| > MaxCommentLength then Rejected(TooLongAlert)
    else
      TrimShortens(text);
      Accepted(Trim(text))
  }

  /** `handleCommentSubmit` runs the same checks, then needs a signed-in user. */
  function CheckSubmit(text: string, session: Option<Session>): (r: Check)
    ensures r.Accepted? ==> |r.text| <= MaxCommentLength
  {
    match CheckEdit(text)
    case Rejected(alert) => Rejected(alert)
    case Accepted(t) => if session.None? || session.value.user.None? then Rejected(LoginAlert) else Accepted(t)
  }

  lemma TrimShortens(s: string)
    ensures |Trim(s)| <= |s|
  {
    TrimStartIsSuffix(s);
    TrimEndShortens(TrimStart(s));
  }

  lemma {:induction false} TrimEndShortens(s: string)
    ensures |TrimEnd(s)| <= |s|
  {
    if s != [] && IsSpace(s[|s| - 1]) {
      TrimEndShortens(s[..|s| - 1]);
    }
  }

  /** An edit goes out exactly when the text has a non-blank character and is
      at most 500 characters long; it carries the trimmed text, and the blank
      alert comes exactly for an all-blank text. */
  lemma EditAcceptedIff(text: string)
    ensures CheckEdit(text).Accepted? <==>
      (exists i :: 0 <= i < |text| && !IsSpace(text[i])) && |text| <= MaxCommentLength
    ensures CheckEdit(text).Accepted? ==> CheckEdit(text).text == Trim(text)
    ensures CheckEdit(text) == Rejected(EmptyAlert) <==> forall i :: 0 <= i < |text| ==> IsSpace(text[i])
    ensures CheckEdit(text) == Rejected(TooLongAlert) <==>
      (exists i :: 0 <= i < |text| && !IsSpace(text[i])) && |text| > MaxCommentLength
  {
    TrimEmptyIff(text);
  }

  /** A submit goes out exactly when the text has a non-blank character, is at
      most 500 characters long and a user is signed in; it carries the trimmed
      text. */
  lemma SubmitAcceptedIff(text: string, session: Option<Session>)
    ensures CheckSubmit(text, session).Accepted? <==>
      (exists i :: 0 <= i < |text| && !IsSpace(text[i])) && |text| <= MaxCommentLength
      && session.Some? && session.value.user.Some?
    ensures CheckSubmit(text, session).Accepted? ==> CheckSubmit(text, session).text == Trim(text)
    ensures CheckSubmit(text, session) == Rejected(EmptyAlert) <==> forall i :: 0 <= i < |text| ==> IsSpace(text[i])
  {
    TrimEmptyIff(text);
  }

  /** `session.user.name || "Usuário Anônimo"`: a missing or empty name falls back. */
  function PostingName(user: UserInfo): (r: string)
    ensures r != ""
    ensures user.name.Some? && user.name.value != "" ==> r == user.name.value
    ensures user.name.None? || user.name.value == "" ==> r == AnonymousName
  {
    if user.name.Some? && user.name.value != "" then user.name.value else AnonymousName
  }

  /** The textarea's `onChange` keeps at most 500 characters. */
  function ClampTyped(value: string): (r: string)
    ensures |r| <= MaxCommentLength && r <= value
    ensures |value| <= MaxCommentLength ==> r == value
  {
    Slice(value, 0, MaxCommentLength)
  }

  /** The emoji picker appends without a clamp, so the submit check is the only
      bound: 500 typed characters and one emoji are refused. */
  lemma EmojiCanOverflow(typed: string, emoji: string, session: Option<Session>)
    requires |typed| == MaxCommentLength && |emoji| > 0
    ensures CheckSubmit(ClampTyped(typed) + emoji, session).Rejected?
  {
    var t := ClampTyped(typed) + emoji;
    if Trim(t) == "" {
    } else {
      assert |t| > MaxCommentLength;
    }
  }

  // ---------------------------------------------------------------------------
  // Rendering

  /** Bodies over 500 characters show their first 500 characters and "...". */
  function DisplayText(text: string): (r: string)
    ensures |text| <= MaxCommentLength ==> r == text
    ensures |text| > MaxCommentLength ==> |r| == MaxCommentLength + 3 && r[..MaxCommentLength] == text[..MaxCommentLength]
    ensures |text| > MaxCommentLength ==> r[MaxCommentLength..] == "..."
  {
    if |text| > MaxCommentLength then Slice(text, 0, MaxCommentLength) + "..." else text
  }

  /** Edit and delete controls: the comment's author name equals
      `session?.user?.name`; with no session or no name, nobody qualifies. */
  predicate CanModify(comment: Comment, session: Option<Session>)
  {
    SessionName(session) == Some(comment.user)
  }

  /** A signed-in user with a non-empty name may edit and delete every
      comment posted under that name. */
  lemma AuthorCanModify(user: UserInfo, comment: Comment)
    requires user.name.Some? && user.name.value != ""
    requires comment.user == PostingName(user)
    ensures CanModify(comment, Some(Session(Some(user))))
  {
  }

  /** As written, a user without a name (or with an empty one) posts under
      "Usuário Anônimo" but the gate compares the raw name, so the author's
      own comment never shows its edit and delete controls. */
  lemma NamelessCannotModify(user: UserInfo, comment: Comment)
    requires user.name.None? || user.name.value == ""
    requires comment.user == PostingName(user)
    ensures comment.user == AnonymousName
    ensures !CanModify(comment, Some(Session(Some(user))))
  {
  }

  /** Intended: the gate compares the comment's author with the name the
      signed-in user posts under. */
  predicate CanModifyIntended(comment: Comment, session: Option<Session>)
  {
    session.Some? && session.value.user.Some? && PostingName(session.value.user.value) == comment.user
  }

  /** With the intended gate every author may modify what they posted, named
      or not; without a signed-in user nobody may. */
  lemma AuthorCanModifyIntended(user: UserInfo, comment: Comment)
    requires comment.user == PostingName(user)
    ensures CanModifyIntended(comment, Some(Session(Some(user))))
    ensures !CanModifyIntended(comment, None) && !CanModifyIntended(comment, Some(Session(None)))
  {
  }

  /** The two gates agree for every user with a non-empty name. */
  lemma GatesAgreeWithName(comment: Comment, user: UserInfo)
    requires user.name.Some? && user.name.value != ""
    ensures CanModify(comment, Some(Session(Some(user)))) == CanModifyIntended(comment, Some(Session(Some(user))))
  {
  }

  // ---------------------------------------------------------------------------
  // The component's state

  class Thread {
    var comments: seq<Comment>
    var displayed: seq<Comment>
    var hasMore: bool
    var newComment: string
    var loading: bool
    var error: Option<string>
    var editingComment: Option<string>
    var editText: string
    var expandedComment: Option<string>

    /** The window is always a prefix of the full list. */
    ghost predicate Valid()
      reads this
    {
      displayed <= comments
    }

    /** `hasMore` says exactly whether comments remain below the window. */
    ghost predicate HasMoreExact()
      reads this
    {
      hasMore == (|displayed| < |comments|)
    }

    constructor ()
      ensures Valid() && comments == [] && displayed == [] && hasMore
      ensures newComment == "" && !loading && error == None
      ensures editingComment == None && editText == "" && expandedComment == None
    {
      comments := [];
      displayed := [];
      hasMore := true;
      newComment := "";
      loading := false;
      error := None;
      editingComment := None;
      editText := "";
      expandedComment := None;
    }

    /** The mount effect `fetchComments`. `hasMore` is cleared for a short list
        but is not set back to true for a long one. */
    method InitialLoad(response: Outcome<seq<Comment>>)
      requires Valid()
      modifies this
      ensures Valid() && !loading
      ensures response.Loaded? ==>
        && comments == response.body && displayed == InitialWindow(response.body)
        && hasMore == (if |response.body| <= InitialDisplayCount then false else old(hasMore))
        && error == None
      ensures response.Failed? ==>
        && comments == old(comments) && displayed == old(displayed) && hasMore == old(hasMore)
        && error == Some(MessageOr(response.message, LoadUnknownError))
      ensures newComment == old(newComment) && editingComment == old(editingComment)
      ensures editText == old(editText) && expandedComment == old(expandedComment)
    {
      loading := true;
      error := None;
      match response {
        case Loaded(data) =>
          comments := data;
          displayed := InitialWindow(data);
          InitialWindowIsPrefix(data);
          if |data| <= InitialDisplayCount {
            hasMore := false;
          }
        case Failed(message) =>
          error := Some(MessageOr(message, LoadUnknownError));
      }
      loading := false;
    }

    /** The mount effect with `hasMore` recomputed as `reloadComments` does it. */
    method InitialLoadIntended(response: Outcome<seq<Comment>>)
      requires Valid()
      modifies this
      ensures Valid() && !loading
      ensures response.Loaded? ==>
        && comments == response.body && displayed == InitialWindow(response.body)
        && hasMore == (|response.body| > InitialDisplayCount) && error == None
        && HasMoreExact()
      ensures response.Failed? ==>
        && comments == old(comments) && displayed == old(displayed) && hasMore == old(hasMore)
        && error == Some(MessageOr(response.message, LoadUnknownError))
      ensures newComment == old(newComment) && editingComment == old(editingComment)
      ensures editText == old(editText) && expandedComment == old(expandedComment)
    {
      loading := true;
      error := None;
      match response {
        case Loaded(data) =>
          comments := data;
          displayed := InitialWindow(data);
          InitialWindowIsPrefix(data);
          hasMore := |data| > InitialDisplayCount;
        case Failed(message) =>
          error := Some(MessageOr(message, LoadUnknownError));
      }
      loading := false;
    }

    /** `fetchMoreComments`: the next three comments join the window. */
    method FetchMore()
      requires Valid()
      modifies this
      ensures Valid() && comments == old(comments)
      ensures displayed == comments[..Min(|old(displayed)| + BatchSize, |comments|)]
      ensures hasMore == (if |displayed| >= |comments| then false else old(hasMore))
      ensures old(HasMoreExact()) ==> HasMoreExact()
      ensures newComment == old(newComment) && loading == old(loading) && error == old(error)
      ensures editingComment == old(editingComment) && editText == old(editText)
      ensures expandedComment == old(expandedComment)
    {
      var next := NextBatch(comments, displayed);
      NextBatchExtendsPrefix(comments, displayed);
      var grown := |displayed| + |next|;
      displayed := displayed + next;
      if grown >= |comments| {
        hasMore := false;
      }
    }

    /** `reloadComments`: a fresh list resets the window to four and recomputes
        `hasMore`; a failure only records an error. */
    method Reload(response: Option<seq<Comment>>)
      requires Valid()
      modifies this
      ensures Valid()
      ensures response.Some? ==>
        && comments == response.value && displayed == InitialWindow(response.value)
        && hasMore == (|response.value| > InitialDisplayCount) && error == old(error)
        && HasMoreExact()
      ensures response.None? ==>
        && comments == old(comments) && displayed == old(displayed) && hasMore == old(hasMore)
        && error == Some(ReloadError)
      ensures newComment == old(newComment) && loading == old(loading)
      ensures editingComment == old(editingComment) && editText == old(editText)
      ensures expandedComment == old(expandedComment)
    {
      if response.Some? {
        comments := response.value;
        displayed := InitialWindow(response.value);
        InitialWindowIsPrefix(response.value);
        hasMore := |response.value| > InitialDisplayCount;
      } else {
        error := Some(ReloadError);
      }
    }

    /** `handleCommentSubmit`. `post` is the POST's outcome and `reload` the
        list fetched afterwards. Returns the alert shown and the (user, text)
        pair sent, if any. */
    method Submit(session: Option<Session>, post: Outcome<()>, reload: Option<seq<Comment>>)
      returns (alert: Option<string>, sent: Option<(string, string)>)
      requires Valid()
      modifies this
      ensures Valid()
      ensures var check := CheckSubmit(old(newComment), session);
        && (check.Rejected? ==> alert == Some(check.alert) && sent == None && unchanged(this))
        && (check.Accepted? ==> sent == Some((PostingName(session.value.user.value), check.text)))
        && (check.Accepted? && post.Failed? ==>
              alert == Some(MessageOr(post.message, SubmitUnknownError)) && unchanged(this))
        && (check.Accepted? && post.Loaded? ==> alert == None && newComment == "")
      ensures old(CheckSubmit(newComment, session)).Accepted? && post.Loaded? ==>
        && loading == old(loading) && editingComment == old(editingComment)
        && editText == old(editText) && expandedComment == old(expandedComment)
        && (reload.Some? ==>
              && comments == reload.value && displayed == InitialWindow(reload.value)
              && hasMore == (|reload.value| > InitialDisplayCount) && error == old(error))
        && (reload.None? ==>
              && comments == old(comments) && displayed == old(displayed) && hasMore == old(hasMore)
              && error == Some(ReloadError))
    {
      var check := CheckSubmit(newComment, session);
      if check.Rejected? {
        return Some(check.alert), None;
      }
      sent := Some((PostingName(session.value.user.value), check.text));
      if post.Failed? {
        return Some(MessageOr(post.message, SubmitUnknownError)), sent;
      }
      Reload(reload);
      newComment := "";
      alert := None;
    }

    /** `handleCommentEdit(commentId)`: sends the trimmed `editText`; on success
        reloads and leaves edit mode. */
    method Edit(commentId: string, put: Outcome<()>, reload: Option<seq<Comment>>)
      returns (alert: Option<string>, sent: Option<string>)
      requires Valid()
      modifies this
      ensures Valid()
      ensures var check := CheckEdit(old(editText));
        && (check.Rejected? ==> alert == Some(check.alert) && sent == None && unchanged(this))
        && (check.Accepted? ==> sent == Some(check.text))
        && (check.Accepted? && put.Failed? ==>
              alert == Some(MessageOr(put.message, EditUnknownError)) && unchanged(this))
        && (check.Accepted? && put.Loaded? ==> alert == None && editingComment == None)
      ensures old(CheckEdit(editText)).Accepted? && put.Loaded? ==>
        && loading == old(loading) && newComment == old(newComment)
        && editText == old(editText) && expandedComment == old(expandedComment)
        && (reload.Some? ==>
              && comments == reload.value && displayed == InitialWindow(reload.value)
              && hasMore == (|reload.value| > InitialDisplayCount) && error == old(error))
        && (reload.None? ==>
              && comments == old(comments) && displayed == old(displayed) && hasMore == old(hasMore)
              && error == Some(ReloadError))
    {
      var check := CheckEdit(editText);
      if check.Rejected? {
        return Some(check.alert), None;
      }
      sent := Some(check.text);
      if put.Failed? {
        return Some(MessageOr(put.message, EditUnknownError)), sent;
      }
      Reload(reload);
      editingComment := None;
      alert := None;
    }

    /** `handleCommentDelete(commentId)`: no local check; success reloads. */
    method Delete(commentId: string, del: Outcome<()>, reload: Option<seq<Comment>>)
      returns (alert: Option<string>)
      requires Valid()
      modifies this
      ensures Valid()
      ensures del.Failed? ==> alert == Some(MessageOr(del.message, DeleteUnknownError)) && unchanged(this)
      ensures del.Loaded? ==>
        && alert == None && editingComment == old(editingComment)
        && loading == old(loading) && newComment == old(newComment)
        && editText == old(editText) && expandedComment == old(expandedComment)
        && (reload.Some? ==>
              && comments == reload.value && displayed == InitialWindow(reload.value)
              && hasMore == (|reload.value| > InitialDisplayCount) && error == old(error))
        && (reload.None? ==>
              && comments == old(comments) && displayed == old(displayed) && hasMore == old(hasMore)
              && error == Some(ReloadError))
    {
      if del.Failed? {
        return Some(MessageOr(del.message, DeleteUnknownError));
      }
      Reload(reload);
      alert := None;
    }

    /** The "Editar" button: edit mode on that comment, starting from its full text. */
    method StartEdit(comment: Comment)
      modifies this
      ensures editingComment == Some(comment.id) && editText == comment.text
      ensures comments == old(comments) && displayed == old(displayed) && newComment == old(newComment)
      ensures hasMore == old(hasMore) && loading == old(loading) && error == old(error)
      ensures expandedComment == old(expandedComment)
    {
      editingComment := Some(comment.id);
      editText := comment.text;
    }

    method CancelEdit()
      modifies this
      ensures editingComment == None && editText == old(editText)
      ensures comments == old(comments) && displayed == old(displayed) && newComment == old(newComment)
      ensures hasMore == old(hasMore) && loading == old(loading) && error == old(error)
      ensures expandedComment == old(expandedComment)
    {
      editingComment := None;
    }

    method TypeComment(value: string)
      modifies this
      ensures newComment == ClampTyped(value)
      ensures comments == old(comments) && displayed == old(displayed) && editText == old(editText)
      ensures hasMore == old(hasMore) && loading == old(loading) && error == old(error)
      ensures editingComment == old(editingComment) && expandedComment == old(expandedComment)
    {
      newComment := ClampTyped(value);
    }

    method InsertEmoji(emoji: string)
      modifies this
      ensures newComment == old(newComment) + emoji
      ensures comments == old(comments) && displayed == old(displayed) && editText == old(editText)
      ensures hasMore == old(hasMore) && loading == old(loading) && error == old(error)
      ensures editingComment == old(editingComment) && expandedComment == old(expandedComment)
    {
      newComment := newComment + emoji;
    }

    /** `handleExpandComment`: the same id collapses, another id expands. */
    method ExpandComment(commentId: string)
      modifies this
      ensures expandedComment == (if old(expandedComment) == Some(commentId) then None else Some(commentId))
      ensures comments == old(comments) && displayed == old(displayed) && newComment == old(newComment)
      ensures hasMore == old(hasMore) && loading == old(loading) && error == old(error)
      ensures editingComment == old(editingComment) && editText == old(editText)
    {
      expandedComment := if expandedComment == Some(commentId) then None else Some(commentId);
    }
  }

  /** As written, a thread whose first list is short keeps `hasMore` false
      when the same component loads a longer list for another event, so the
      comments past the first four can never be loaded. */
  method EventSwitchKeepsHasMoreOff(short: seq<Comment>, long: seq<Comment>)
    returns (hasMore: bool, shown: nat, total: nat)
    requires |short| <= InitialDisplayCount < |long|
    ensures !hasMore && shown < total
  {
    var thread := new Thread();
    thread.InitialLoad(Loaded(short));
    thread.InitialLoad(Loaded(long));
    InitialWindowIsPrefix(long);
    hasMore, shown, total := thread.hasMore, |thread.displayed|, |thread.comments|;
  }

  /** With the intended load, the same sequence leaves the rest loadable. */
  method EventSwitchIntended(short: seq<Comment>, long: seq<Comment>)
    returns (hasMore: bool, shown: nat, total: nat)
    requires |short| <= InitialDisplayCount < |long|
    ensures hasMore && shown < total
  {
    var thread := new Thread();
    thread.InitialLoadIntended(Loaded(short));
    thread.InitialLoadIntended(Loaded(long));
    hasMore, shown, total := thread.hasMore, |thread.displayed|, |thread.comments|;
  }
}
