/** The chat panel of the page script: the message history, the input field, and
    `sendMessage`, split where it awaits the server's reply. */
module Chat {
  import opened Common
  import opened TimeFormat
  import opened Playback

  // ---------------------------------------------------------------------------
  // String.prototype.trim

  /** ECMAScript's WhiteSpace and LineTerminator characters: what `trim()` removes. */
  predicate IsJsWhitespace(c: char) {
    c == '\t' || c == '\n' || c == '\U{000B}' || c == '\U{000C}' || c == '\r' || c == ' '
    || c == '\U{00A0}' || c == '\U{1680}' || ('\U{2000}' <= c <= '\U{200A}')
    || c == '\U{2028}' || c == '\U{2029}' || c == '\U{202F}' || c == '\U{205F}'
    || c == '\U{3000}' || c == '\U{FEFF}'
  }

  /** `s` without its leading whitespace. */
  function TrimStart(s: string): (r: string)
    ensures |r| <= |s| && r == s[|s| - |r|..]
    ensures forall k :: 0 <= k < |s| - |r| ==> IsJsWhitespace(s[k])
    ensures r != [] ==> !IsJsWhitespace(r[0])
  {
    if s != [] && IsJsWhitespace(s[0]) then
      var r := TrimStart(s[1..]);
      assert forall k :: 1 <= k < |s| - |r| ==> s[k] == s[1..][k - 1];
      r
    else s
  }

  /** `s` without its trailing whitespace. */
  function TrimEnd(s: string): (r: string)
    ensures |r| <= |s| && r == s[..|r|]
    ensures forall k :: |r| <= k < |s| ==> IsJsWhitespace(s[k])
    ensures r != [] ==> !IsJsWhitespace(r[|r| - 1])
  {
    if s != [] && IsJsWhitespace(s[|s| - 1]) then
      var r := TrimEnd(s[..|s| - 1]);
      assert forall k :: |r| <= k < |s| - 1 ==> s[k] == s[..|s| - 1][k];
      r
    else s
  }

  /** `s.trim()`: empty exactly when `s` is all whitespace; otherwise it begins and ends
      with a non-whitespace character. */
  function Trim(s: string): (r: string)
    ensures r == [] <==> forall k :: 0 <= k < |s| ==> IsJsWhitespace(s[k])
    ensures r != [] ==> !IsJsWhitespace(r[0]) && !IsJsWhitespace(r[|r| - 1])
  {
    var front := TrimStart(s);
    var r := TrimEnd(front);
    assert r == [] ==> front == [];
    assert r != [] ==> r[0] == front[0];
    r
  }

  /** `r` sits in `s` at `i`, with only whitespace before and after it. */
  predicate TrimmedAt(s: string, r: string, i: nat) {
    i + |r| <= |s| && r == s[i..i + |r|]
    && (forall k :: 0 <= k < i ==> IsJsWhitespace(s[k]))
    && (forall k :: i + |r| <= k < |s| ==> IsJsWhitespace(s[k]))
  }

  /** `trim()` returns the input itself with its leading and trailing whitespace cut off. */
  lemma TrimIsInfix(s: string)
    ensures exists i: nat :: TrimmedAt(s, Trim(s), i)
  {
    var f := TrimStart(s);
    var r := TrimEnd(f);
    InfixOfSuffix(s, f, r);
    assert TrimmedAt(s, Trim(s), |s| - |f|);
  }

  /** Cutting whitespace off the front of `s` and then off the back of what is left leaves
      a part of `s` with only whitespace around it. */
  lemma InfixOfSuffix(s: string, f: string, r: string)
    requires |f| <= |s| && f == s[|s| - |f|..] && (forall k :: 0 <= k < |s| - |f| ==> IsJsWhitespace(s[k]))
    requires |r| <= |f| && r == f[..|r|] && (forall k :: |r| <= k < |f| ==> IsJsWhitespace(f[k]))
    ensures TrimmedAt(s, r, |s| - |f|)
  {
    var i := |s| - |f|;
    assert r == s[i..i + |r|];
    forall k | i + |r| <= k < |s| ensures IsJsWhitespace(s[k]) {
      assert s[k] == f[k - i];
    }
  }

  // ---------------------------------------------------------------------------
  // Messages

  /** The class an added message gets: `user-message`, `bot-message` (answers and errors)
      or `loading-message`. */
  datatype Kind = UserMessage | BotMessage | LoadingMessage

  /** A message element of the history. `id` stands for the element's identity, which
      `loadingMessage.remove()` relies on. */
  datatype Message = Message(id: nat, kind: Kind, text: string)

  /** What the synchronous part of `sendMessage` hands to the request: the query text and
      the placeholder to remove when the reply comes. */
  datatype Outgoing = Outgoing(query: string, loadingId: nat)

  /** How `fetch('/chat/')` and `response.json()` end: the decoded JSON object, or an
      exception with its `message`. */
  datatype FetchOutcome = Replied(data: JsonObject) | FetchFailed(message: string)

  const Greeting: string := "特許制度について質問してください。関連する講義音声の箇所も自動的に表示されます。"
  const LoadingText: string := "回答を生成中..."
  const ErrorLabel: string := "エラー: "
  const NetworkErrorLabel: string := "通信エラーが発生しました: "

  /** A JSON value interpolated into a template literal. */
  function JsString(v: JsonValue): string {
    match v
    case JStr(s) => s
    case JNum(n) => IntToString(n)
  }

  /** JavaScript truthiness of a property value; `undefined` is falsy. */
  predicate Truthy(v: Option<JsonValue>) {
    match v
    case None => false
    case Some(JStr(s)) => s != ""
    case Some(JNum(n)) => n != 0
  }

  /** The text an element shows after `textContent` is set to a property value:
      `undefined` leaves it empty. */
  function TextContent(v: Option<JsonValue>): string {
    match v
    case None => ""
    case Some(x) => JsString(x)
  }

  /** The text of the one message `sendMessage` adds once the exchange is over. */
  function ReplyText(outcome: FetchOutcome): string {
    match outcome
    case FetchFailed(message) => NetworkErrorLabel + message
    case Replied(data) =>
      var error := Lookup(data, "error");
      if Truthy(error) then ErrorLabel + TextContent(error)
      else TextContent(Lookup(data, "response_text"))
  }

  /** The reference a reply asks the player to show: only a reply without an error that
      carries both times. */
  function ReplyReference(outcome: FetchOutcome): (r: Option<(int, int)>)
    ensures r.Some? ==> outcome.Replied? && !Truthy(Lookup(outcome.data, "error"))
    ensures r.Some? ==> "start_time" in outcome.data && "end_time" in outcome.data
    ensures r.Some? ==> outcome.data["start_time"] == JNum(r.value.0)
                        && outcome.data["end_time"] == JNum(r.value.1)
    ensures (outcome.Replied? && !Truthy(Lookup(outcome.data, "error"))
             && "start_time" in outcome.data && "end_time" in outcome.data
             && outcome.data["start_time"].JNum? && outcome.data["end_time"].JNum?) ==> r.Some?
  {
    match outcome
    case FetchFailed(_) => None
    case Replied(data) =>
      if Truthy(Lookup(data, "error")) then None
      else if "start_time" in data && "end_time" in data && data["start_time"].JNum? && data["end_time"].JNum?
      then Some((data["start_time"].num, data["end_time"].num))
      else None
  }

  /** The player after a reply that asks for `reference`, with `ready` the player's state
      when the reply arrives. Without a reference nothing changes. With one,
      `createRegionWithRetry(0)` has run once: on a ready player the region is the only and
      current one, the displays show it and the delayed seek to its start is pending; on a
      player still loading only the first retry is pending. */
  function AfterReply(v: PlayerView, ready: bool, reference: Option<(int, int)>): PlayerView {
    match reference
    case None => v
    case Some((s, e)) =>
      if ready then
        PlayerView([Region(s as real, e as real)], Some(0), s as real, e as real, v.timers + [DelayedSeek(s as real)])
      else
        v.(timers := v.timers + [Retry(s as real, e as real, 1)])
  }

  predicate IncreasingIds(h: seq<Message>) {
    forall i, j :: 0 <= i < j < |h| ==> h[i].id < h[j].id
  }

  /** The history after `element.remove()` on the element with this id. */
  function RemoveById(h: seq<Message>, id: nat): seq<Message> {
    if h == [] then []
    else (if h[0].id == id then [] else [h[0]]) + RemoveById(h[1..], id)
  }

  /** Removal keeps exactly the elements with another id. */
  lemma {:induction false} RemoveByIdMembers(h: seq<Message>, id: nat)
    ensures forall m :: m in RemoveById(h, id) <==> m in h && m.id != id
    decreases |h|
  {
    if h != [] {
      RemoveByIdMembers(h[1..], id);
      assert h == [h[0]] + h[1..];
    }
  }

  /** Removal keeps the history in order of creation. */
  lemma {:induction false} RemoveByIdIncreasing(h: seq<Message>, id: nat)
    requires IncreasingIds(h)
    ensures IncreasingIds(RemoveById(h, id))
    decreases |h|
  {
    if h != [] {
      var tail := h[1..];
      assert IncreasingIds(tail) by {
        forall i, j | 0 <= i < j < |tail| ensures tail[i].id < tail[j].id {
          assert tail[i] == h[i + 1] && tail[j] == h[j + 1];
        }
      }
      RemoveByIdIncreasing(tail, id);
      RemoveByIdAbove(tail, id, h[0].id);
      var rest := RemoveById(tail, id);
      var r := RemoveById(h, id);
      if h[0].id != id {
        assert r == [h[0]] + rest;
        forall i, j | 0 <= i < j < |r| ensures r[i].id < r[j].id {
          assert r[j] == rest[j - 1];
          if i > 0 {
            assert r[i] == rest[i - 1];
          }
        }
      }
    }
  }

  /** Every id removal keeps is above a bound every id of the input is above. */
  lemma {:induction false} RemoveByIdAbove(h: seq<Message>, id: nat, bound: int)
    requires forall k :: 0 <= k < |h| ==> bound < h[k].id
    ensures forall k :: 0 <= k < |RemoveById(h, id)| ==> bound < RemoveById(h, id)[k].id
    decreases |h|
  {
    if h != [] {
      RemoveByIdAbove(h[1..], id, bound);
    }
  }

  /** Removing by id distributes over concatenation. */
  lemma {:induction false} RemoveByIdAppend(a: seq<Message>, b: seq<Message>, id: nat)
    ensures RemoveById(a + b, id) == RemoveById(a, id) + RemoveById(b, id)
    decreases |a|
  {
    if a == [] {
      assert a + b == b;
    } else {
      assert (a + b)[1..] == a[1..] + b;
      RemoveByIdAppend(a[1..], b, id);
    }
  }

  /** Removing an id no message has changes nothing. */
  lemma {:induction false} RemoveByIdAbsent(h: seq<Message>, id: nat)
    requires forall k :: 0 <= k < |h| ==> h[k].id != id
    ensures RemoveById(h, id) == h
    decreases |h|
  {
    if h != [] {
      RemoveByIdAbsent(h[1..], id);
    }
  }

  /** Removing the newest element, whose id no other element has, leaves the ones before it. */
  lemma RemoveLast(h: seq<Message>, last: Message)
    requires forall k :: 0 <= k < |h| ==> h[k].id < last.id
    ensures RemoveById(h + [last], last.id) == h
  {
    RemoveByIdAppend(h, [last], last.id);
    RemoveByIdAbsent(h, last.id);
    assert RemoveById([last], last.id) == [];
  }

  class Chat {
    /** The children of `chatHistory`, oldest first. */
    var history: seq<Message>
    /** `messageInput.value`. */
    var input: string
    /** The id the next added element gets. */
    var nextId: nat

    ghost predicate Valid()
      reads this
    {
      IncreasingIds(history) && forall k :: 0 <= k < |history| ==> history[k].id < nextId
    }

    /** The page once loaded: the greeting is the only message and the input is empty. */
    constructor ()
      ensures Valid() && history == [Message(0, BotMessage, Greeting)] && input == "" && nextId == 1
    {
      history, input, nextId := [Message(0, BotMessage, Greeting)], "", 1;
    }

    /** The user edits the input field. */
    method SetInput(text: string)
      requires Valid()
      modifies this`input
      ensures Valid() && input == text
    {
      input := text;
    }

    /** `addMessageToChat(text, ...)`: a new element at the end of the history. */
    method AddMessage(kind: Kind, text: string) returns (id: nat)
      requires Valid()
      modifies this`history, this`nextId
      ensures Valid()
      ensures id == old(nextId) && nextId == old(nextId) + 1
      ensures history == old(history) + [Message(id, kind, text)]
    {
      id := nextId;
      history := history + [Message(id, kind, text)];
      nextId := nextId + 1;
    }

    /** `sendMessage` up to its `await`: nothing for an input that trims to empty (the
        input is then left as it is); otherwise the trimmed text as a user message, the
        input cleared and the loading placeholder added. */
    method SendMessage() returns (sent: Option<Outgoing>)
      requires Valid()
      modifies this`history, this`nextId, this`input
      ensures Valid()
      ensures Trim(old(input)) == "" ==>
                sent == None && history == old(history) && input == old(input) && nextId == old(nextId)
      ensures Trim(old(input)) != "" ==>
                sent == Some(Outgoing(Trim(old(input)), old(nextId) + 1))
                && input == "" && nextId == old(nextId) + 2
                && history == old(history) + [Message(old(nextId), UserMessage, Trim(old(input))),
                                              Message(old(nextId) + 1, LoadingMessage, LoadingText)]
    {
      var message := Trim(input);
      if message == "" {
        return None;
      }
      var _ := AddMessage(UserMessage, message);
      input := "";
      var loadingId := AddMessage(LoadingMessage, LoadingText);
      sent := Some(Outgoing(message, loadingId));
    }

    /** `sendMessage` after its `await`: the placeholder is removed, one bot message with
        the answer or the error is added, and a reply with both times starts
        `createRegionWithRetry(0)` on the player. */
    method ReceiveReply(player: Player, loadingId: nat, outcome: FetchOutcome)
      requires Valid() && player.Valid()
      modifies this`history, this`nextId
      modifies player`regions, player`current, player`shownStart, player`shownEnd, player`timers
      ensures Valid() && player.Valid()
      ensures history == RemoveById(old(history), loadingId) + [Message(old(nextId), BotMessage, ReplyText(outcome))]
      ensures nextId == old(nextId) + 1
      ensures player.View() == AfterReply(old(player.View()), old(player.ready), ReplyReference(outcome))
    {
      RemoveByIdIncreasing(history, loadingId);
      RemoveByIdMembers(history, loadingId);
      history := RemoveById(history, loadingId);
      match outcome
      case FetchFailed(message) =>
        var _ := AddMessage(BotMessage, NetworkErrorLabel + message);
      case Replied(data) =>
        var error := Lookup(data, "error");
        if Truthy(error) {
          var _ := AddMessage(BotMessage, ErrorLabel + TextContent(error));
        } else {
          var _ := AddMessage(BotMessage, TextContent(Lookup(data, "response_text")));
          if "start_time" in data && "end_time" in data && data["start_time"].JNum? && data["end_time"].JNum? {
            player.Attempt(data["start_time"].num as real, data["end_time"].num as real, 0);
          }
        }
    }

    /** `sendMessage` when nothing else happens while it awaits the reply: a trimmed-empty
        input changes nothing; otherwise the history gains exactly the user message and then
        one bot message, the placeholder is gone and the input is cleared. */
    method SendAndReceive(player: Player, outcome: FetchOutcome)
      requires Valid() && player.Valid()
      modifies this`history, this`nextId, this`input
      modifies player`regions, player`current, player`shownStart, player`shownEnd, player`timers
      ensures Valid() && player.Valid()
      ensures Trim(old(input)) == "" ==>
                history == old(history) && input == old(input) && nextId == old(nextId)
                && player.View() == old(player.View())
      ensures Trim(old(input)) != "" ==>
                input == "" && nextId == old(nextId) + 3
                && history == old(history) + [Message(old(nextId), UserMessage, Trim(old(input))),
                                              Message(old(nextId) + 2, BotMessage, ReplyText(outcome))]
                && player.View() == AfterReply(old(player.View()), old(player.ready), ReplyReference(outcome))
    {
      ghost var message := Trim(input);
      ghost var before := history + [Message(nextId, UserMessage, message)];
      var sent := SendMessage();
      if sent.None? {
        return;
      }
      var placeholder := Message(sent.value.loadingId, LoadingMessage, LoadingText);
      assert history == before + [placeholder];
      RemoveLast(before, placeholder);
      ReceiveReply(player, sent.value.loadingId, outcome);
    }
  }
}
