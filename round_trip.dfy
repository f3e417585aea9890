/** Properties that join the server view and the page script: the page's `MM:SS` text is
    read back by the view's tag grammar, and an answer's reference reaches the player. */
module RoundTrip {
  import opened Common
  import opened Decimal
  import opened ReferenceTag
  import opened ChatApi
  import opened TimeFormat
  import opened Playback
  import opened Chat

  /** Two digits, a colon and two digits form a time the pattern accepts, with those
      fields. */
  lemma FiveCharClock(m: string, sec: string)
    requires |m| == 2 && |sec| == 2 && AllDigits(m) && AllDigits(sec)
    ensures IsClock(m + ":" + sec)
    ensures MinutesField(m + ":" + sec) == m && SecondsField(m + ":" + sec) == sec
  {
    var t := m + ":" + sec;
    assert t[..2] == m && t[3..] == sec && t[2] == ':';
  }

  /** For whole seconds below 6000, `formatTime` writes a time of the form the view's
      pattern accepts, and `time_to_seconds` reads it back unchanged. */
  lemma FormatThenParse(n: nat)
    requires n < 6000
    ensures IsClock(FormatTime(n as real))
    ensures TimeToSeconds(FormatTime(n as real)) == n
  {
    FormatWholeSeconds(n);
    FiveCharClock(TwoDigits(n / 60), TwoDigits(n % 60));
  }

  /** A tag written with `formatTime` for whole seconds below 6000 is recognised and
      yields exactly those two times. */
  lemma FormattedTagIsRecognised(a: nat, b: nat)
    requires a < 6000 && b < 6000
    ensures Reference(Prefix + FormatTime(a as real) + "-" + FormatTime(b as real) + "]") == Some((a, b))
  {
    FormatThenParse(a);
    FormatThenParse(b);
    var tag := Prefix + FormatTime(a as real) + "-" + FormatTime(b as real) + "]";
    LeadingTagDecides(FormatTime(a as real), FormatTime(b as real), "");
    assert tag + "" == tag;
  }

  /** What the page makes of the view's answer: the backend's text unchanged as the bot
      message, and the reference exactly when the text has one. */
  lemma AnswerAsThePageReadsIt(text: string, body: JsonObject)
    requires body.Keys == (if Reference(text).Some? then {"response_text", "start_time", "end_time"} else {"response_text"})
    requires body["response_text"] == JStr(text)
    requires Reference(text).Some? ==>
               body["start_time"] == JNum(Reference(text).value.0)
               && body["end_time"] == JNum(Reference(text).value.1)
    ensures ReplyText(Replied(body)) == text
    ensures Reference(text).None? ==> ReplyReference(Replied(body)).None?
    ensures Reference(text).Some? ==>
              ReplyReference(Replied(body)) == Some((Reference(text).value.0 as int, Reference(text).value.1 as int))
  {
    assert "error" !in body;
  }

  /** Every error response of the view (wrong method, missing key, exception) reaches the
      page as a single `エラー: ` message with the view's error text and no region. */
  lemma ErrorAsThePageReadsIt(requestMethod: string, upstream: Upstream, resp: JsonResponse)
    requires requestMethod != "POST" ==> resp == JsonResponse(405, map["error" := JStr(PostRequired)])
    requires requestMethod == "POST" && upstream.NoApiKey? ==> resp == JsonResponse(500, map["error" := JStr(KeyMissing)])
    requires requestMethod == "POST" && upstream.Raised? ==>
               resp == JsonResponse(500, map["error" := JStr(ErrorPrefix + upstream.message)])
    requires requestMethod != "POST" || !upstream.Answered?
    ensures resp.status != 200 && "error" in resp.body && resp.body["error"].JStr?
    ensures ReplyText(Replied(resp.body)) == ErrorLabel + resp.body["error"].str
    ensures ReplyReference(Replied(resp.body)).None?
  {
    var e := resp.body["error"].str;
    assert e != [] by {
      if requestMethod != "POST" {
        assert e[0] == PostRequired[0];
      } else if upstream.NoApiKey? {
        assert e[0] == KeyMissing[0];
      } else {
        assert e[0] == ErrorPrefix[0];
      }
    }
  }

  /** Displays that hold whole seconds below 6000 (the times a reference carries once the
      region is made, for a track under 100 minutes) show two `MM:SS` texts that the view's
      pattern accepts and `time_to_seconds` reads back as those seconds. */
  lemma DisplaysReadBack(player: Player, a: nat, b: nat)
    requires a < 6000 && b < 6000
    requires player.shownStart == a as real && player.shownEnd == b as real
    ensures IsClock(player.DisplayTexts().0) && TimeToSeconds(player.DisplayTexts().0) == a
    ensures IsClock(player.DisplayTexts().1) && TimeToSeconds(player.DisplayTexts().1) == b
    ensures |player.DisplayTexts().0| == 5 && |player.DisplayTexts().1| == 5
  {
    FormatThenParse(a);
    FormatThenParse(b);
    FormatTimeShape(a as real);
    FormatTimeShape(b as real);
  }

  /** The times of the answer's reference, as integers on the page. */
  function AnswerReference(text: string): Option<(int, int)> {
    match Reference(text)
    case None => None
    case Some((a, b)) => Some((a as int, b as int))
  }

  /** The view answering a POST with the backend's `text`, as the page receives it: the
      bot message it leads to is the text itself, and the region it asks for is the text's
      reference. */
  method ServeAnswer(text: string) returns (outcome: FetchOutcome)
    ensures outcome.Replied? && ReplyText(outcome) == text
    ensures Reference(text).None? ==> ReplyReference(outcome).None?
    ensures Reference(text).Some? ==>
              ReplyReference(outcome) == Some((Reference(text).value.0 as int, Reference(text).value.1 as int))
    ensures ReplyReference(outcome) == AnswerReference(text)
  {
    var resp := HandleChat("POST", Answered(text));
    AnswerAsThePageReadsIt(text, resp.body);
    outcome := Replied(resp.body);
  }

  /** One question, asked with a non-blank input and answered by the backend with `text`,
      with nothing else happening meanwhile: the history gains the question and the text,
      and a referenced range becomes the single region of a ready player, with the seek to
      its start scheduled. */
  method AskAboutLecture(chat: Chat, player: Player, text: string)
    requires chat.Valid() && player.Valid() && Trim(chat.input) != ""
    modifies chat`history, chat`nextId, chat`input
    modifies player`regions, player`current, player`shownStart, player`shownEnd, player`timers
    ensures chat.Valid() && player.Valid() && chat.input == "" && chat.nextId == old(chat.nextId) + 3
    ensures chat.history == old(chat.history) + [Message(old(chat.nextId), UserMessage, Trim(old(chat.input))),
                                                 Message(old(chat.nextId) + 2, BotMessage, text)]
    ensures player.View() == AfterReply(old(player.View()), old(player.ready), AnswerReference(text))
  {
    var outcome := ServeAnswer(text);
    chat.SendAndReceive(player, outcome);
  }
}
