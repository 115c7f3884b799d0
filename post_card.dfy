/** The logic inside the post card (`Frontend/src/components/PostCard.jsx`): which image URLs
    are shown, the optimistic like toggle and its revert, the hashtag-highlighting split of the
    content, and the letter shown when there is no profile picture. */
module PostCard {
  import opened Common
  import opened JsText
  import opened Domain
  import PostController

  // Image URLs

  /** `isValidImageUrl`: a truthy string that does not trim to nothing and is not the text
      of `undefined` or `null`. */
  predicate IsValidImageUrl(v: JsValue)
    ensures IsValidImageUrl(v) ==> v.Str? && v.s != [] && Trim(v.s) != [] && !IsJsWhitespace(Trim(v.s)[0])
  {
    v.Str? && v.s != "" && Trim(v.s) != "" && v.s != "undefined" && v.s != "null"
  }

  /** A value is a usable image URL exactly when it is a string with a non-whitespace
      character that is not one of the two placeholder texts. */
  lemma IsValidImageUrlIff(v: JsValue)
    ensures IsValidImageUrl(v) <==>
              v.Str? && (exists i :: 0 <= i < |v.s| && !IsJsWhitespace(v.s[i]))
              && v.s != "undefined" && v.s != "null"
  {
    if v.Str? {
      TrimEmptyIff(v.s);
      if v.s == "" {
        assert AllWhitespace(v.s);
      }
    }
  }

  /** `validImages`: the valid URLs of the post, in their order; a post without the field has
      none. */
  function ValidImages(imageUrls: Option<seq<JsValue>>): (r: seq<JsValue>)
    ensures imageUrls.None? ==> r == []
    ensures forall v :: v in r ==> IsValidImageUrl(v) && v in OrEmpty(imageUrls)
    ensures forall i :: 0 <= i < |OrEmpty(imageUrls)| && IsValidImageUrl(OrEmpty(imageUrls)[i]) ==>
              OrEmpty(imageUrls)[i] in r
  {
    Filter(OrEmpty(imageUrls), IsValidImageUrl)
  }

  /** The selection keeps the order of the URLs: the valid images of two lists one after the
      other are the valid images of each, one after the other; a list of valid URLs is kept
      whole. */
  lemma ValidImagesOrder(a: seq<JsValue>, b: seq<JsValue>)
    ensures ValidImages(Some(a + b)) == ValidImages(Some(a)) + ValidImages(Some(b))
    ensures (forall i :: 0 <= i < |a| ==> IsValidImageUrl(a[i])) ==> ValidImages(Some(a)) == a
  {
    FilterAppend(a, b, IsValidImageUrl);
    if forall i :: 0 <= i < |a| ==> IsValidImageUrl(a[i]) {
      FilterAll(a, IsValidImageUrl);
    }
  }

  // Likes

  /** The optimistic updater: the current user's id filtered out when the card showed it as
      liked, otherwise pushed on the end. `wasLiked` is read from the list the card rendered. */
  function OptimisticLikes(prev: seq<UserId>, wasLiked: bool, me: UserId): (r: seq<UserId>)
    ensures wasLiked ==> me !in r && multiset(r) == multiset(prev)[me := 0]
    ensures !wasLiked ==> r == prev + [me]
  {
    RemoveAllMultiset(prev, me);
    if wasLiked then RemoveAll(prev, me) else prev + [me]
  }

  /** The updater run when the request fails: the id pushed back after a failed unlike, or
      filtered out after a failed like. */
  function RevertLikes(prev: seq<UserId>, wasLiked: bool, me: UserId): (r: seq<UserId>)
    ensures wasLiked ==> r == prev + [me]
    ensures !wasLiked ==> me !in r && multiset(r) == multiset(prev)[me := 0]
  {
    RemoveAllMultiset(prev, me);
    if wasLiked then prev + [me] else RemoveAll(prev, me)
  }

  /** The optimistic list is the one the server stores after its own toggle. */
  lemma OptimisticMatchesServer(likes: seq<UserId>, me: UserId)
    ensures OptimisticLikes(likes, me in likes, me) == PostController.LikeToggled(likes, me)
  {
  }

  /** A failed like is undone exactly: from a list without the user, the optimistic update
      followed by the revert gives back the original list. */
  lemma RevertAfterLikeRestores(likes: seq<UserId>, me: UserId)
    requires me !in likes
    ensures RevertLikes(OptimisticLikes(likes, false, me), false, me) == likes
  {
    RemoveAllAppend(likes, [me], me);
    RemoveAllAbsent(likes, me);
    assert RemoveAll([me], me) == [];
  }

  /** A failed unlike brings the user back exactly once, at the end, with every other entry as
      before. */
  lemma RevertAfterUnlike(likes: seq<UserId>, me: UserId)
    requires me in likes
    ensures var r := RevertLikes(OptimisticLikes(likes, true, me), true, me);
            multiset(r) == multiset(likes)[me := 1] && r[|r| - 1] == me
  {
    var o := OptimisticLikes(likes, true, me);
    var r := o + [me];
    assert multiset(r) == multiset(o) + multiset{me};
    assert multiset(o) == multiset(likes)[me := 0];
  }

  /** A failed unlike is undone exactly when the user liked the post once, as its last entry. */
  lemma RevertAfterUnlikeRestores(likes: seq<UserId>, me: UserId)
    requires me in likes && multiset(likes)[me] == 1 && likes[|likes| - 1] == me
    ensures RevertLikes(OptimisticLikes(likes, true, me), true, me) == likes
  {
    var init := likes[..|likes| - 1];
    assert likes == init + [me];
    assert multiset(likes) == multiset(init) + multiset{me};
    assert multiset(init)[me] == 0;
    assert me !in init;
    RemoveAllAppend(init, [me], me);
    RemoveAllAbsent(init, me);
    assert RemoveAll([me], me) == [];
    assert OptimisticLikes(likes, true, me) == init;
  }

  /** The revert after a failed unlike gives the original list back exactly when the user
      liked it once and that like was the last entry. */
  lemma RevertAfterUnlikeRestoresIff(likes: seq<UserId>, me: UserId)
    requires me in likes
    ensures RevertLikes(OptimisticLikes(likes, true, me), true, me) == likes
            <==> multiset(likes)[me] == 1 && likes[|likes| - 1] == me
  {
    RevertAfterUnlike(likes, me);
    if multiset(likes)[me] == 1 && likes[|likes| - 1] == me {
      RevertAfterUnlikeRestores(likes, me);
    }
  }


  /** `handleLike` run to completion without other updates in between: nothing happens without
      a signed-in user (a missing or empty id); otherwise the optimistic list stays when the
      server accepts and is reverted when it rejects or the request throws: a like is undone
      exactly, an unlike brings the user back once. */
  function HandleLike(likes: seq<UserId>, currentUser: Option<UserId>, serverOk: bool): (r: seq<UserId>)
    ensures currentUser.None? || currentUser.value == "" ==> r == likes
    ensures currentUser.Some? && currentUser.value != "" && serverOk ==>
              r == PostController.LikeToggled(likes, currentUser.value)
    ensures currentUser.Some? && currentUser.value != "" && !serverOk && currentUser.value !in likes ==>
              r == likes
    ensures currentUser.Some? && currentUser.value != "" && !serverOk && currentUser.value in likes ==>
              multiset(r) == multiset(likes)[currentUser.value := 1]
  {
    if currentUser.None? || currentUser.value == "" then likes
    else
      var me := currentUser.value;
      var wasLiked := me in likes;
      var optimistic := OptimisticLikes(likes, wasLiked, me);
      OptimisticMatchesServer(likes, me);
      assert !wasLiked ==> RevertLikes(optimistic, wasLiked, me) == likes by {
        if !wasLiked {
          RevertAfterLikeRestores(likes, me);
        }
      }
      assert wasLiked ==> multiset(RevertLikes(optimistic, wasLiked, me)) == multiset(likes)[me := 1] by {
        if wasLiked {
          RevertAfterUnlike(likes, me);
        }
      }
      if serverOk then optimistic else RevertLikes(optimistic, wasLiked, me)
  }

  /** Against the like handler as written, which fails every request, the card's toggle never
      sticks: a like is taken back and an unlike puts the user back in the list. */
  lemma LikeAsWrittenNeverSticks(posts: seq<Post>, postId: PostId, likes: seq<UserId>, me: UserId)
    requires me != ""
    ensures var ok := PostController.LikeAsWritten(posts, me, postId).reply != PostController.LikeFailed;
            && (me !in likes ==> HandleLike(likes, Some(me), ok) == likes)
            && (me in likes ==> me in HandleLike(likes, Some(me), ok))
  {
    if me in likes {
      RevertAfterUnlike(likes, me);
    }
  }

  // Hashtag highlighting

  predicate NoWhitespace(s: string) {
    forall i :: 0 <= i < |s| ==> !IsJsWhitespace(s[i])
  }

  /** Length of the longest prefix of `s` without whitespace. */
  function WordEnd(s: string): (n: nat)
    ensures n <= |s|
    ensures forall i :: 0 <= i < n ==> !IsJsWhitespace(s[i])
    ensures n < |s| ==> IsJsWhitespace(s[n])
    decreases |s|
  {
    if s == [] || IsJsWhitespace(s[0]) then 0 else 1 + WordEnd(s[1..])
  }

  /** Length of the longest all-whitespace prefix of `s`. */
  function SpaceEnd(s: string): (n: nat)
    ensures n <= |s|
    ensures forall i :: 0 <= i < n ==> IsJsWhitespace(s[i])
    ensures n < |s| ==> !IsJsWhitespace(s[n])
    decreases |s|
  {
    if s == [] || !IsJsWhitespace(s[0]) then 0 else 1 + SpaceEnd(s[1..])
  }

  lemma WordPrefix(s: string)
    ensures NoWhitespace(s[..WordEnd(s)])
  {
    var n := WordEnd(s);
    forall i | 0 <= i < n ensures !IsJsWhitespace(s[..n][i]) {
      assert s[..n][i] == s[i];
    }
  }

  lemma RunPrefix(s: string)
    ensures AllWhitespace(s[..SpaceEnd(s)])
  {
    var n := SpaceEnd(s);
    forall i | 0 <= i < n ensures IsJsWhitespace(s[..n][i]) {
      assert s[..n][i] == s[i];
    }
  }

  /** The whitespace run after the leading word of `s` is not empty. */
  lemma RunAfterWord(s: string, w: nat)
    requires w == WordEnd(s) < |s|
    ensures SpaceEnd(s[w..]) > 0
  {
    assert s[w..][0] == s[w];
  }

  /** What follows a maximal whitespace run starts a non-empty word. */
  lemma WordAfterRun(t: string, n: nat)
    requires n == SpaceEnd(t) < |t|
    ensures !IsJsWhitespace(t[n..][0]) && WordEnd(t[n..]) > 0
  {
    assert t[n..][0] == t[n];
  }

  lemma ConcatPair(a: string, b: string, rest: seq<string>)
    ensures Concat([a, b] + rest) == a + b + Concat(rest)
  {
    assert ([a, b] + rest)[1..] == [b] + rest;
    assert ([b] + rest)[1..] == rest;
  }

  /** The shape of a split of `s`: the pieces concatenate to `s`, words (no whitespace) sit at
      even positions and non-empty whitespace runs at odd ones, and only the first and the last
      word can be empty. */
  predicate IsSplit(r: seq<string>, s: string) {
    && |r| % 2 == 1
    && Concat(r) == s
    && (forall i :: 0 <= i < |r| && i % 2 == 0 ==> NoWhitespace(r[i]))
    && (forall i :: 0 <= i < |r| && i % 2 == 1 ==> r[i] != [] && AllWhitespace(r[i]))
    && (forall i :: 0 < i < |r| - 1 && i % 2 == 0 ==> r[i] != [])
  }

  /** A word, a whitespace run, and a split of the rest that starts with a non-whitespace
      character make a split of the whole. */
  lemma SplitCons(word: string, run: string, rest: string, tail: seq<string>)
    requires NoWhitespace(word) && run != [] && AllWhitespace(run)
    requires IsSplit(tail, rest)
    requires rest != [] ==> !IsJsWhitespace(rest[0]) && tail[0] != []
    ensures IsSplit([word, run] + tail, word + run + rest)
  {
    var r := [word, run] + tail;
    assert Concat(r) == word + run + rest by {
      ConcatPair(word, run, tail);
    }
    assert forall i :: 0 <= i < |r| && i % 2 == 0 ==> NoWhitespace(r[i]) by {
      forall i | 0 <= i < |r| && i % 2 == 0 ensures NoWhitespace(r[i]) {
        if i >= 2 {
          assert r[i] == tail[i - 2];
        }
      }
    }
    assert forall i :: 0 <= i < |r| && i % 2 == 1 ==> r[i] != [] && AllWhitespace(r[i]) by {
      forall i | 0 <= i < |r| && i % 2 == 1 ensures r[i] != [] && AllWhitespace(r[i]) {
        if i >= 2 {
          assert r[i] == tail[i - 2];
        }
      }
    }
    assert forall i :: 0 < i < |r| - 1 && i % 2 == 0 ==> r[i] != [] by {
      forall i | 0 < i < |r| - 1 && i % 2 == 0 ensures r[i] != [] {
        assert r[i] == tail[i - 2];
        if i == 2 {
          assert rest != [] by {
            assert |tail| > 1;
            assert tail[1] != [];
            ConcatNonEmpty(tail, 1);
          }
        }
      }
    }
  }


  /** `content.split(/(\s+)/)`: the text cut at every maximal run of whitespace, the runs kept
      as pieces of their own. */
  function SplitWords(s: string): (r: seq<string>)
    ensures r != []
    decreases |s|
  {
    var w := WordEnd(s);
    if w == |s| then [s]
    else
      RunAfterWord(s, w);
      var after := s[w..];
      var n := SpaceEnd(after);
      [s[..w], after[..n]] + SplitWords(after[n..])
  }

  /** Cutting `s` after `w` and its remainder after `n` loses nothing. */
  lemma SliceJoin<T>(s: seq<T>, w: nat, n: nat)
    requires w <= |s| && n <= |s| - w
    ensures s[..w] + s[w..][..n] + s[w..][n..] == s
  {
    var after := s[w..];
    assert after[..n] + after[n..] == after;
    assert s[..w] + after == s;
    assert s[..w] + after[..n] + after[n..] == s[..w] + (after[..n] + after[n..]);
  }

  /** The split has the shape of a split of `s`, starting with the leading word of `s`. */
  lemma {:induction false} SplitWordsShape(s: string)
    ensures IsSplit(SplitWords(s), s)
    ensures SplitWords(s)[0] == s[..WordEnd(s)]
    decreases |s|
  {
    var w := WordEnd(s);
    WordPrefix(s);
    if w == |s| {
      assert s[..w] == s;
      assert Concat([s]) == s + Concat([]);
    } else {
      RunAfterWord(s, w);
      var after := s[w..];
      var n := SpaceEnd(after);
      var rest := after[n..];
      var tail := SplitWords(rest);
      assert SplitWords(s) == [s[..w], after[..n]] + tail;
      assert IsSplit(tail, rest) && tail[0] == rest[..WordEnd(rest)] by {
        SplitWordsShape(rest);
      }
      assert AllWhitespace(after[..n]) by {
        RunPrefix(after);
      }
      assert rest != [] ==> !IsJsWhitespace(rest[0]) && tail[0] != [] by {
        if n < |after| {
          WordAfterRun(after, n);
        }
      }
      SliceJoin(s, w, n);
      SplitCons(s[..w], after[..n], rest, tail);
    }
  }

  /** The pieces the card renders: none without content, otherwise the split. */
  function Words(content: Option<string>): (r: seq<string>)
    ensures content.None? ==> r == []
    ensures content.Some? ==> Concat(r) == content.value && r != []
  {
    match content
    case None => []
    case Some(text) =>
      SplitWordsShape(text);
      SplitWords(text)
  }

  /** A piece is shown highlighted when it starts with `#`. */
  predicate Highlighted(piece: string) {
    |piece| > 0 && piece[0] == '#'
  }

  /** Rendering loses no text, and a highlighted piece is always a whole word: a hashtag never
      swallows whitespace. */
  lemma HashtagsAreWords(content: string)
    ensures Concat(SplitWords(content)) == content
    ensures forall i :: 0 <= i < |SplitWords(content)| && Highlighted(SplitWords(content)[i]) ==>
              i % 2 == 0 && NoWhitespace(SplitWords(content)[i])
  {
    var r := SplitWords(content);
    SplitWordsShape(content);
    forall i | 0 <= i < |r| && Highlighted(r[i])
      ensures i % 2 == 0
    {
      assert !IsJsWhitespace(r[i][0]);
      assert !AllWhitespace(r[i]);
    }
  }

  // Avatar

  /** The avatar letter: the first character of the full name, upper-cased; failing that the
      first of the username; failing that `?`. A missing or empty name falls through. */
  function AvatarInitial(fullName: Option<string>, username: Option<string>): (r: string)
    ensures |r| == 1
    ensures fullName.Some? && fullName.value != "" ==> r == [UpperAscii(fullName.value[0])]
    ensures !(fullName.Some? && fullName.value != "") && username.Some? && username.value != "" ==>
              r == [UpperAscii(username.value[0])]
    ensures !(fullName.Some? && fullName.value != "") && !(username.Some? && username.value != "") ==>
              r == "?"
    ensures !('a' <= r[0] <= 'z')
  {
    if fullName.Some? && fullName.value != "" then [UpperAscii(fullName.value[0])]
    else if username.Some? && username.value != "" then [UpperAscii(username.value[0])]
    else "?"
  }
}
