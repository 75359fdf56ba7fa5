/** The emoji reaction roster of an album (src/app/eventos/Likes.tsx). Each
    signed-in user holds at most one reaction: reacting again changes its emoji
    in place, reacting for the first time appends one, and un-reacting removes
    the user's entries. The backend's answer is a parameter (`responseOk`); the
    list changes only after an OK answer. */
module Likes {
  import opened Common

  datatype Like = Like(user: string, emoji: string, timestamp: int)

  datatype ToastKind = Success | Error | Info
  datatype ToastMsg = ToastMsg(message: string, kind: ToastKind)

  const AnonymousName: string := "Usuário Anônimo"

  const LoadFailed: string := "Não foi possível carregar as reações."
  const RemoveNeedsLogin: string := "Você precisa estar logado para remover uma reação."
  const Removed: string := "Reação removida com sucesso."
  const RemoveFailed: string := "Não foi possível remover a reação."
  const ReactNeedsLogin: string := "Você precisa estar logado para reagir."
  const Updated: string := "Reação atualizada com sucesso."
  const UpdateFailed: string := "Não foi possível atualizar a reação."
  const Added: string := "Reação adicionada com sucesso."
  const AddFailed: string := "Não foi possível reagir ao evento."

  /** `session.user?.name ?? "Usuário Anônimo"`: only a missing name falls back. */
  function ReactingName(session: Session): (r: string)
    ensures SessionName(Some(session)).Some? ==> r == SessionName(Some(session)).value
    ensures SessionName(Some(session)).None? ==> r == AnonymousName
  {
    if session.user.Some? && session.user.value.name.Some? then session.user.value.name.value else AnonymousName
  }

  /** `likes.find(like => like.user === user)` found something. */
  predicate HasReaction(likes: seq<Like>, user: string)
  {
    exists i :: 0 <= i < |likes| && likes[i].user == user
  }

  /** At most one entry per user. */
  predicate UniquePerUser(likes: seq<Like>)
  {
    forall i, j :: 0 <= i < j < |likes| ==> likes[i].user != likes[j].user
  }

  /** The PATCH branch's `map`: the user's entries take the new emoji. */
  function SetEmoji(likes: seq<Like>, user: string, emoji: string): (r: seq<Like>)
    ensures |r| == |likes|
    ensures forall i :: 0 <= i < |likes| ==> r[i].user == likes[i].user && r[i].timestamp == likes[i].timestamp
    ensures forall i :: 0 <= i < |likes| && likes[i].user != user ==> r[i] == likes[i]
    ensures forall i :: 0 <= i < |likes| && likes[i].user == user ==> r[i].emoji == emoji
  {
    if likes == [] then []
    else [if likes[0].user == user then likes[0].(emoji := emoji) else likes[0]] + SetEmoji(likes[1..], user, emoji)
  }

  /** `removeReaction`'s `filter`: every entry of `user` goes. */
  function RemoveUser(likes: seq<Like>, user: string): (r: seq<Like>)
    ensures !HasReaction(r, user)
    ensures IsSubsequence(r, likes)
    ensures forall l: Like :: l.user != user ==> multiset(r)[l] == multiset(likes)[l]
  {
    FilterIsSubsequence(likes, (l: Like) => l.user != user);
    FilterCountsAll(likes, (l: Like) => l.user != user);
    Filter(likes, (l: Like) => l.user != user)
  }

  /** The list after a reaction the backend accepted: an update in place when the
      user already reacted, otherwise a new entry at the end. */
  function React(likes: seq<Like>, user: string, emoji: string, now: int): (r: seq<Like>)
    ensures |r| == (if HasReaction(likes, user) then |likes| else |likes| + 1)
    ensures forall i :: 0 <= i < |likes| ==> r[i].user == likes[i].user && r[i].timestamp == likes[i].timestamp
    ensures forall i :: 0 <= i < |likes| && likes[i].user != user ==> r[i] == likes[i]
    ensures !HasReaction(likes, user) ==> r[|likes|] == Like(user, emoji, now)
  {
    if HasReaction(likes, user) then SetEmoji(likes, user, emoji) else likes + [Like(user, emoji, now)]
  }

  /** Reacting as a user who already reacted keeps the length and the order of
      users and changes only that user's emoji. */
  lemma ReactUpdatesInPlace(likes: seq<Like>, user: string, emoji: string, now: int)
    requires HasReaction(likes, user)
    ensures var r := React(likes, user, emoji, now);
      && |r| == |likes|
      && (forall i :: 0 <= i < |r| ==> r[i].user == likes[i].user)
      && (forall i :: 0 <= i < |r| && likes[i].user == user ==> r[i] == likes[i].(emoji := emoji))
      && (forall i :: 0 <= i < |r| && likes[i].user != user ==> r[i] == likes[i])
  {
  }

  /** A first reaction appends exactly one entry at the end. */
  lemma ReactAppendsOnce(likes: seq<Like>, user: string, emoji: string, now: int)
    requires !HasReaction(likes, user)
    ensures React(likes, user, emoji, now) == likes + [Like(user, emoji, now)]
  {
  }

  /** Reacting preserves "at most one entry per user", and afterwards the user
      has exactly one entry, carrying the new emoji. */
  lemma ReactKeepsUnique(likes: seq<Like>, user: string, emoji: string, now: int)
    requires UniquePerUser(likes)
    ensures var r := React(likes, user, emoji, now);
      && UniquePerUser(r)
      && exists i :: 0 <= i < |r| && r[i].user == user && r[i].emoji == emoji
                     && forall j :: 0 <= j < |r| && j != i ==> r[j].user != user
  {
    var r := React(likes, user, emoji, now);
    if HasReaction(likes, user) {
      var i :| 0 <= i < |likes| && likes[i].user == user;
      assert r[i].user == user && r[i].emoji == emoji;
    } else {
      assert r[|likes|].user == user;
    }
  }

  /** Reacting never touches another user's entry: once `user` is filtered out,
      the roster before and after are the same. */
  lemma {:induction false} ReactLeavesOthers(likes: seq<Like>, user: string, emoji: string, now: int)
    ensures RemoveUser(React(likes, user, emoji, now), user) == RemoveUser(likes, user)
  {
    if HasReaction(likes, user) {
      RemoveAfterSetEmoji(likes, user, emoji);
    } else {
      FilterAppend(likes, [Like(user, emoji, now)], (l: Like) => l.user != user);
    }
  }

  lemma {:induction false} RemoveAfterSetEmoji(likes: seq<Like>, user: string, emoji: string)
    ensures RemoveUser(SetEmoji(likes, user, emoji), user) == RemoveUser(likes, user)
  {
    if likes != [] {
      var r := SetEmoji(likes, user, emoji);
      assert r[1..] == SetEmoji(likes[1..], user, emoji);
      RemoveAfterSetEmoji(likes[1..], user, emoji);
    }
  }

  /** Two reactions in a row by one user amount to one reaction with the second
      emoji, dated by the first. */
  lemma ReactTwice(likes: seq<Like>, user: string, e1: string, e2: string, t1: int, t2: int)
    ensures React(React(likes, user, e1, t1), user, e2, t2) == React(likes, user, e2, t1)
  {
    var once := React(likes, user, e1, t1);
    if HasReaction(likes, user) {
      var i :| 0 <= i < |likes| && likes[i].user == user;
      assert once[i].user == user;
      SetEmojiTwice(likes, user, e1, e2);
    } else {
      assert once[|likes|].user == user;
      var r := SetEmoji(once, user, e2);
      assert r == likes + [Like(user, e2, t1)];
    }
  }

  lemma SetEmojiTwice(likes: seq<Like>, user: string, e1: string, e2: string)
    ensures SetEmoji(SetEmoji(likes, user, e1), user, e2) == SetEmoji(likes, user, e2)
  {
  }

  /** The roster update `handleReaction` applies once its request returns.
      `existed` is what `likes.find` saw when the handler started, before the
      await; the update runs on the roster of that later moment (`prev`). */
  function Complete(prev: seq<Like>, user: string, emoji: string, now: int, existed: bool): (r: seq<Like>)
    ensures existed ==> |r| == |prev| && forall i :: 0 <= i < |prev| ==> r[i].user == prev[i].user
    ensures !existed ==> |r| == |prev| + 1 && r[..|prev|] == prev && r[|prev|] == Like(user, emoji, now)
  {
    if existed then SetEmoji(prev, user, emoji) else prev + [Like(user, emoji, now)]
  }

  /** A handler with no other one in flight decides on the roster it updates,
      so its update is React. */
  lemma CompleteAloneIsReact(likes: seq<Like>, user: string, emoji: string, now: int)
    ensures Complete(likes, user, emoji, now, HasReaction(likes, user)) == React(likes, user, emoji, now)
  {
  }

  /** As written: a user with no entry clicks two emojis before the first POST
      returns. Both handlers saw no entry, so both append, and the roster holds
      the user twice. */
  lemma OverlappingFirstReactions(likes: seq<Like>, user: string, e1: string, e2: string, t1: int, t2: int)
    requires !HasReaction(likes, user)
    ensures var r := Complete(Complete(likes, user, e1, t1, HasReaction(likes, user)), user, e2, t2, HasReaction(likes, user));
      && |r| == |likes| + 2
      && r[|likes|].user == user && r[|likes| + 1].user == user
      && !UniquePerUser(r)
  {
  }

  /** Intended: each update decides against the roster it changes, as React
      does, so two overlapping reactions still leave the user exactly one
      entry, carrying the later emoji. */
  lemma OverlappingReactionsIntended(likes: seq<Like>, user: string, e1: string, e2: string, t1: int, t2: int)
    requires UniquePerUser(likes)
    ensures var r := React(React(likes, user, e1, t1), user, e2, t2);
      && UniquePerUser(r)
      && |r| == (if HasReaction(likes, user) then |likes| else |likes| + 1)
      && exists i :: 0 <= i < |r| && r[i].user == user && r[i].emoji == e2
  {
  }

  /** After an accepted removal the user holds no reaction, the others keep
      theirs in order. */
  lemma RemoveDropsUser(likes: seq<Like>, user: string)
    ensures var r := RemoveUser(likes, user);
      && !HasReaction(r, user)
      && IsSubsequence(r, likes)
      && (forall i :: 0 <= i < |likes| && likes[i].user != user ==> likes[i] in r)
      && (UniquePerUser(likes) ==> UniquePerUser(r))
  {
    FilterIsSubsequence(likes, (l: Like) => l.user != user);
    var r := RemoveUser(likes, user);
    if UniquePerUser(likes) {
      SubsequenceKeepsUnique(r, likes);
    }
  }

  lemma {:induction false} SubsequenceKeepsUnique(a: seq<Like>, b: seq<Like>)
    requires IsSubsequence(a, b) && UniquePerUser(b)
    ensures UniquePerUser(a)
    decreases |b|
  {
    if a != [] {
      if a[0] == b[0] && IsSubsequence(a[1..], b[1..]) {
        SubsequenceKeepsUnique(a[1..], b[1..]);
        SubsequenceMembers(a[1..], b[1..]);
        forall j | 0 < j < |a| ensures a[0].user != a[j].user {
          assert a[1..][j - 1] == a[j];
          assert a[j] in a[1..];
          var k :| 0 <= k < |b[1..]| && b[1..][k] == a[j];
          assert b[k + 1] == a[j];
        }
      } else {
        SubsequenceKeepsUnique(a, b[1..]);
      }
    }
  }

  // ---------------------------------------------------------------------------
  // The inline summary next to the heart

  function SummaryLine(like: Like): string
  {
    like.user + " " + like.emoji
  }

  /** `likes.slice(0, 3).map(l => `${l.user} ${l.emoji}`).join(", ")`. */
  function Summary(likes: seq<Like>): (r: string)
    ensures likes == [] ==> r == ""
    ensures likes != [] ==> StartsWith(r, likes[0].user + " " + likes[0].emoji)
  {
    var shown := if |likes| < 3 then likes else likes[..3];
    var lines := seq(|shown|, i requires 0 <= i < |shown| => SummaryLine(shown[i]));
    var r := Join(lines, ", ");
    assert likes != [] ==> StartsWith(r, lines[0]) by {
      if likes != [] && |lines| > 1 {
        assert r == lines[0] + (", " + Join(lines[1..], ", "));
      }
    }
    r
  }

  /** The "+n outros" button, present only beyond three reactions; n, written
      in decimal between the "+" and " outros", counts the reactions not shown. */
  function MoreLabel(likes: seq<Like>): (r: Option<string>)
    ensures r.Some? <==> |likes| > 3
    ensures r.Some? ==> StartsWith(r.value, "+") && |r.value| > 8 && r.value[|r.value| - 7..] == " outros"
    ensures r.Some? ==> r.value == "+" + NatToString(|likes| - 3) + " outros"
    ensures r.Some? ==> var n := r.value[1..|r.value| - 7];
      AllDigits(n) && DecimalValue(n) == |likes| - 3
  {
    if |likes| > 3 then
      var n := NatToString(|likes| - 3);
      var text := "+" + n + " outros";
      assert text[1..|text| - 7] == n;
      Some(text)
    else None
  }

  /** The summary names the first min(3, n) reactions in roster order, one
      "user emoji" piece each, and "+n outros" appears exactly when n > 3. */
  lemma SummaryShowsFirstThree(likes: seq<Like>)
    requires |likes| > 0
    requires forall i :: 0 <= i < |likes| ==> ',' !in likes[i].user && ',' !in likes[i].emoji
    ensures var pieces := Split(Summary(likes), ", ");
      && |pieces| == (if |likes| < 3 then |likes| else 3)
      && (forall i :: 0 <= i < |pieces| ==> pieces[i] == likes[i].user + " " + likes[i].emoji)
    ensures MoreLabel(likes).Some? <==> |likes| > 3
  {
    var shown := if |likes| < 3 then likes else likes[..3];
    var lines := seq(|shown|, i requires 0 <= i < |shown| => SummaryLine(shown[i]));
    forall k | 0 <= k < |lines| ensures ", "[0] !in lines[k] {
      assert lines[k] == shown[k].user + " " + shown[k].emoji;
      assert shown[k] == likes[k];
    }
    SplitJoin(lines, ", ");
  }

  // ---------------------------------------------------------------------------
  // The heart button

  /** As written: `likes.some((like) => like.user === session?.user?.name)`;
      with no name the right side is undefined and no entry matches. */
  predicate HeartFilled(likes: seq<Like>, session: Option<Session>)
  {
    var name := SessionName(session);
    name.Some? && HasReaction(likes, name.value)
  }

  /** Intended: the same test with the name a reaction is stored under. */
  predicate HeartFilledIntended(likes: seq<Like>, session: Option<Session>)
  {
    session.Some? && HasReaction(likes, ReactingName(session.value))
  }

  /** A reaction the backend accepted leaves an entry for its user. */
  lemma ReactLeavesEntry(likes: seq<Like>, user: string, emoji: string, now: int)
    ensures HasReaction(React(likes, user, emoji, now), user)
  {
    var r := React(likes, user, emoji, now);
    if HasReaction(likes, user) {
      var i :| 0 <= i < |likes| && likes[i].user == user;
      assert r[i].user == user;
    } else {
      assert r[|likes|].user == user;
    }
  }

  /** As written, a signed-in user without a name reacts under "Usuário
      Anônimo", yet the heart stays empty and its click removes nothing. */
  lemma NamelessReactionStuck(likes: seq<Like>, emoji: string, now: int)
    ensures var session := Some(Session(Some(UserInfo(None))));
      var after := React(likes, ReactingName(session.value), emoji, now);
      && HasReaction(after, AnonymousName)
      && !HeartFilled(after, session)
  {
    ReactLeavesEntry(likes, AnonymousName, emoji, now);
  }

  /** With the intended test, every accepted reaction fills the heart and an
      accepted click on it empties it again, whatever the session holds. */
  lemma ReactThenUnreact(likes: seq<Like>, session: Session, emoji: string, now: int)
    ensures var user := ReactingName(session);
      var after := React(likes, user, emoji, now);
      && HeartFilledIntended(after, Some(session))
      && !HeartFilledIntended(RemoveUser(after, user), Some(session))
  {
    var user := ReactingName(session);
    ReactLeavesEntry(likes, user, emoji, now);
    RemoveDropsUser(React(likes, user, emoji, now), user);
  }

  /** The two tests agree for every session that carries a name. */
  lemma HeartTestsAgreeWithName(likes: seq<Like>, session: Session)
    requires session.user.Some? && session.user.value.name.Some?
    ensures HeartFilled(likes, Some(session)) == HeartFilledIntended(likes, Some(session))
  {
  }

  // ---------------------------------------------------------------------------
  // The component's state

  class LikesPanel {
    var likes: seq<Like>
    var toast: Option<ToastMsg>
    var isLoading: bool

    constructor ()
      ensures likes == [] && toast == None && !isLoading
    {
      likes := [];
      toast := None;
      isLoading := false;
    }

    /** `fetchLikes`: `response` is the parsed roster, or None when the request failed. */
    method FetchLikes(response: Option<seq<Like>>)
      modifies this
      ensures likes == (if response.Some? then response.value else old(likes))
      ensures toast == (if response.Some? then old(toast) else Some(ToastMsg(LoadFailed, Error)))
      ensures !isLoading
    {
      isLoading := true;
      if response.Some? {
        likes := response.value;
      } else {
        toast := Some(ToastMsg(LoadFailed, Error));
      }
      isLoading := false;
    }

    /** `removeReaction`: without a session nothing is sent and the roster is
        kept; otherwise an OK answer filters the user out. */
    method RemoveReaction(session: Option<Session>, responseOk: bool)
      modifies this
      ensures session.None? ==> likes == old(likes) && toast == Some(ToastMsg(RemoveNeedsLogin, Error))
      ensures session.Some? && responseOk ==>
        likes == RemoveUser(old(likes), ReactingName(session.value)) && toast == Some(ToastMsg(Removed, Success))
      ensures session.Some? && !responseOk ==> likes == old(likes) && toast == Some(ToastMsg(RemoveFailed, Error))
      ensures isLoading == old(isLoading)
    {
      if session.None? {
        toast := Some(ToastMsg(RemoveNeedsLogin, Error));
        return;
      }
      var userName := ReactingName(session.value);
      if responseOk {
        likes := RemoveUser(likes, userName);
        toast := Some(ToastMsg(Removed, Success));
      } else {
        toast := Some(ToastMsg(RemoveFailed, Error));
      }
    }

    /** `handleReaction(emoji)`: PATCH when the user already reacted, POST
        otherwise; `now` is the timestamp a new entry gets. */
    method HandleReaction(session: Option<Session>, emoji: string, responseOk: bool, now: int)
      modifies this
      ensures session.None? ==> likes == old(likes) && toast == Some(ToastMsg(ReactNeedsLogin, Error))
      ensures session.Some? ==>
        var user := ReactingName(session.value);
        var existed := HasReaction(old(likes), user);
        && likes == (if responseOk then React(old(likes), user, emoji, now) else old(likes))
        && toast == Some(if responseOk then ToastMsg(if existed then Updated else Added, Success)
                         else ToastMsg(if existed then UpdateFailed else AddFailed, Error))
      ensures isLoading == old(isLoading)
    {
      if session.None? {
        toast := Some(ToastMsg(ReactNeedsLogin, Error));
        return;
      }
      var userName := ReactingName(session.value);
      if HasReaction(likes, userName) {
        if responseOk {
          likes := SetEmoji(likes, userName, emoji);
          toast := Some(ToastMsg(Updated, Success));
        } else {
          toast := Some(ToastMsg(UpdateFailed, Error));
        }
      } else {
        if responseOk {
          likes := likes + [Like(userName, emoji, now)];
          toast := Some(ToastMsg(Added, Success));
        } else {
          toast := Some(ToastMsg(AddFailed, Error));
        }
      }
    }

    /** The heart button as written: it removes only when `HeartFilled`, that
        is when some entry's user equals `session?.user?.name`. */
    method ClickHeart(session: Option<Session>, responseOk: bool)
      modifies this
      ensures HeartFilled(old(likes), session) ==>
        && likes == (if responseOk then RemoveUser(old(likes), SessionName(session).value) else old(likes))
        && toast == Some(if responseOk then ToastMsg(Removed, Success) else ToastMsg(RemoveFailed, Error))
      ensures !HeartFilled(old(likes), session) ==> likes == old(likes) && toast == old(toast)
      ensures isLoading == old(isLoading)
    {
      if HeartFilled(likes, session) {
        RemoveReaction(session, responseOk);
      }
    }

    /** The heart button checked against the name reactions are stored under. */
    method ClickHeartIntended(session: Option<Session>, responseOk: bool)
      modifies this
      ensures HeartFilledIntended(old(likes), session) ==>
        && likes == (if responseOk then RemoveUser(old(likes), ReactingName(session.value)) else old(likes))
        && toast == Some(if responseOk then ToastMsg(Removed, Success) else ToastMsg(RemoveFailed, Error))
      ensures HeartFilledIntended(old(likes), session) && responseOk ==> !HeartFilledIntended(likes, session)
      ensures !HeartFilledIntended(old(likes), session) ==> likes == old(likes) && toast == old(toast)
      ensures isLoading == old(isLoading)
    {
      if HeartFilledIntended(likes, session) {
        RemoveReaction(session, responseOk);
        RemoveDropsUser(old(likes), ReactingName(session.value));
      }
    }

    /** The toast's own close button: `setToast(null)`. */
    method CloseToast()
      modifies this
      ensures toast == None && likes == old(likes) && isLoading == old(isLoading)
    {
      toast := None;
    }
  }
}
