/**
 * The invocation entry point: dispatch on the requested mode and, for the
 * next-draw announcement, compose the message sent to the chat channel from
 * the two texts read off the results page.
 */
module Handler {
  import opened Wrappers
  import opened PyText
  import opened Jackpot
  import opened DrawDate
  import opened Caption

  const Title: string := "\U{1F3B0} TOTO Update"
  const JackpotLabel: string := "Next Jackpot: "
  const DrawLabel: string := "Next Draw: "
  const Tonight: string := "Tonight, "
  const CaptionSeparator: string := "\n\n"

  const NextDrawMode: string := "next_draw"
  const ResultsMode: string := "results"
  const MissingTokenBody: string := "Missing Browserless token"
  const ResultsBody: string := "results mode not implemented yet"

  /** The dictionary the handler returns: a status code and an optional body. */
  datatype Response = Response(statusCode: int, body: Option<string>)

  /** The exceptions the next-draw path raises on an unexpected page. */
  datatype Failure =
    | JackpotUnreadable(parse: NormaliseError)
    | DrawDateUnreadable(split: SplitError)

  /**
   * What one invocation does: the value it returns (None when no mode
   * matches) and the message handed to the chat notifier, if any.
   */
  datatype Invocation = Invocation(response: Option<Response>, sent: Option<string>)

  /** The inner texts of the jackpot element and of the first draw-date element. */
  datatype Page = Page(jackpotText: string, drawDateText: string)

  /** The caption is appended after a blank line only when it is non-empty. */
  function WithCaption(msg: string, comment: string): (r: string)
    ensures msg <= r
    ensures r == msg <==> comment == ""
    ensures comment != "" ==> r[|msg|..] == CaptionSeparator + comment
  {
    if comment != "" then msg + CaptionSeparator + comment else msg
  }

  /** The three lines of the announcement, before any caption. */
  function Announcement(jackpot: nat, drawLine: string): string {
    Title + "\n" + (JackpotLabel + Render(jackpot)) + "\n" + (DrawLabel + drawLine)
  }

  /**
   * The announcement for a jackpot and a (stripped) draw-date text: fails
   * exactly when the text has fewer than three comma-separated segments,
   * and otherwise is the header, the rendered jackpot and a draw line,
   * followed by the caption when there is one.
   */
  function ComposeMessage(jackpot: nat, drawDate: string, today: string, comment: string): (r: Result<string, SplitError>)
    ensures r.Ok? <==> Count(drawDate, ',') >= 2
    ensures r.Ok? ==>
              exists line :: (line == drawDate || Tonight <= line) && r.value == WithCaption(Announcement(jackpot, line), comment)
  {
    match SplitDrawDate(drawDate)
    case Err(e) => Err(e)
    case Ok(when) =>
      var line := if when.date == today then Tonight + when.time else drawDate;
      assert line == drawDate || Tonight <= line;
      var msg := WithCaption(Announcement(jackpot, line), comment);
      Ok(msg)
  }

  /**
   * The next-draw path: normalise the jackpot, obtain the caption, then
   * split the draw date and compose. The jackpot is read first, so a text
   * without digits fails before the draw date is looked at.
   */
  function NextDraw(page: Page, today: string, apiKey: Option<string>, reply: Option<string>): (r: Result<string, Failure>)
    ensures r.Err? <==> Normalise(page.jackpotText).Err? || Count(page.drawDateText, ',') < 2
    ensures Normalise(page.jackpotText).Err? ==> r == Err(JackpotUnreadable(NoDigits))
  {
    DigitsOfStrip(page.jackpotText);
    CountStrip(page.drawDateText, ',');
    match Normalise(Strip(page.jackpotText))
    case Err(e) => Err(JackpotUnreadable(e))
    case Ok(jackpot) =>
      var comment := GenerateComment(jackpot, apiKey, reply);
      match ComposeMessage(jackpot, Strip(page.drawDateText), today, comment)
      case Err(e) => Err(DrawDateUnreadable(e))
      case Ok(msg) => Ok(msg)
  }

  predicate HasToken(token: Option<string>) {
    token.Some? && token.value != ""
  }

  /**
   * The handler. A missing remote-browser token answers 500 whatever the mode; the
   * results mode answers 200 with a stub body; an unrecognised mode returns
   * nothing; the next-draw mode sends the announcement and answers 200, or
   * fails on a page it cannot read.
   */
  function LambdaHandler(mode: Option<string>, token: Option<string>, page: Page, today: string,
                         apiKey: Option<string>, reply: Option<string>): (r: Result<Invocation, Failure>)
    ensures !HasToken(token) ==> r == Ok(Invocation(Some(Response(500, Some(MissingTokenBody))), None))
    ensures HasToken(token) && mode == Some(ResultsMode) ==>
              r == Ok(Invocation(Some(Response(200, Some(ResultsBody))), None))
    ensures HasToken(token) && mode != Some(NextDrawMode) && mode != Some(ResultsMode) ==>
              r == Ok(Invocation(None, None))
    ensures HasToken(token) && mode == Some(NextDrawMode) ==>
              (r.Ok? <==> Normalise(page.jackpotText).Ok? && Count(page.drawDateText, ',') >= 2)
    ensures HasToken(token) && mode == Some(NextDrawMode) && r.Ok? ==>
              r.value.response == Some(Response(200, None)) && r.value.sent.Some?
    ensures r.Ok? && r.value.sent.Some? ==> HasToken(token) && mode == Some(NextDrawMode)
  {
    if !HasToken(token) then
      Ok(Invocation(Some(Response(500, Some(MissingTokenBody))), None))
    else if mode == Some(NextDrawMode) then
      match NextDraw(page, today, apiKey, reply)
      case Err(e) => Err(e)
      case Ok(msg) => Ok(Invocation(Some(Response(200, None)), Some(msg)))
    else if mode == Some(ResultsMode) then
      Ok(Invocation(Some(Response(200, Some(ResultsBody))), None))
    else
      Ok(Invocation(None, None))
  }

  /**
   * When the draw date is today's, the announcement reads "Tonight, " and
   * the trimmed time segment.
   */
  lemma NextDrawTonight(page: Page, today: string, apiKey: Option<string>, reply: Option<string>, jackpot: nat)
    ensures Normalise(page.jackpotText) == Ok(jackpot)
            && SplitDrawDate(Strip(page.drawDateText)).Ok?
            && SplitDrawDate(Strip(page.drawDateText)).value.date == today ==>
              NextDraw(page, today, apiKey, reply)
              == Ok(WithCaption(Announcement(jackpot, Tonight + SplitDrawDate(Strip(page.drawDateText)).value.time),
                                GenerateComment(jackpot, apiKey, reply)))
  {
    DigitsOfStrip(page.jackpotText);
  }

  /**
   * On any other day the announcement quotes the whole draw-date text,
   * stripped but otherwise as scraped.
   */
  lemma NextDrawOtherDay(page: Page, today: string, apiKey: Option<string>, reply: Option<string>, jackpot: nat)
    ensures Normalise(page.jackpotText) == Ok(jackpot)
            && SplitDrawDate(Strip(page.drawDateText)).Ok?
            && SplitDrawDate(Strip(page.drawDateText)).value.date != today ==>
              NextDraw(page, today, apiKey, reply)
              == Ok(WithCaption(Announcement(jackpot, Strip(page.drawDateText)),
                                GenerateComment(jackpot, apiKey, reply)))
  {
    DigitsOfStrip(page.jackpotText);
  }

  /**
   * A draw tonight with a jackpot under the caption threshold: the handler
   * answers 200 and sends exactly the header, the rendered jackpot and
   * "Tonight, " with the trimmed time, with no caption.
   */
  lemma TonightBelowThreshold(token: string, jackpotText: string, day: string, date: string, time: string,
                              today: string, apiKey: Option<string>, reply: Option<string>, jackpot: nat)
    requires token != ""
    requires Normalise(jackpotText) == Ok(jackpot) && jackpot < Threshold
    requires ',' !in day && ',' !in date && ',' !in time
    requires IsStripped(day + [','] + (date + [','] + time))
    requires Strip(date) == today
    ensures LambdaHandler(Some(NextDrawMode), Some(token), Page(jackpotText, day + [','] + (date + [','] + time)),
                          today, apiKey, reply)
         == Ok(Invocation(Some(Response(200, None)),
                          Some(Announcement(jackpot, Tonight + Strip(time)))))
  {
    var page := Page(jackpotText, day + [','] + (date + [','] + time));
    var msg := Announcement(jackpot, Tonight + Strip(time));
    assert NextDraw(page, today, apiKey, reply) == Ok(msg) by {
      StrippedFields(day, date, time);
      NextDrawTonight(page, today, apiKey, reply, jackpot);
    }
    HandlerSendsNextDraw(token, page, today, apiKey, reply, msg);
  }

  /** In next-draw mode with a token, the handler sends what the next-draw path composes. */
  lemma HandlerSendsNextDraw(token: string, page: Page, today: string, apiKey: Option<string>, reply: Option<string>, msg: string)
    requires token != ""
    ensures NextDraw(page, today, apiKey, reply) == Ok(msg) ==>
              LambdaHandler(Some(NextDrawMode), Some(token), page, today, apiKey, reply)
              == Ok(Invocation(Some(Response(200, None)), Some(msg)))
  {
  }

  lemma StrippedFields(day: string, date: string, time: string)
    requires ',' !in day && ',' !in date && ',' !in time
    requires IsStripped(day + [','] + (date + [','] + time))
    ensures SplitDrawDate(Strip(day + [','] + (date + [','] + time))) == Ok(DrawSchedule(Strip(date), Strip(time)))
  {
    StripStripped(day + [','] + (date + [','] + time));
    assert time + [] == time;
    SplitDrawDateFields(day, date, time, []);
  }

  /**
   * The jackpot line of every announcement, i.e. its second line, normalises
   * back to the jackpot that was read from the page.
   */
  lemma JackpotLineRoundTrip(page: Page, today: string, apiKey: Option<string>, reply: Option<string>)
    ensures NextDraw(page, today, apiKey, reply).Ok? ==>
      var lines := Split(NextDraw(page, today, apiKey, reply).value, '\n');
      |lines| >= 2 && Normalise(lines[1]) == Normalise(page.jackpotText)
  {
    if NextDraw(page, today, apiKey, reply).Ok? {
      JackpotLineHolds(page, today, apiKey, reply);
    }
  }

  lemma JackpotLineHolds(page: Page, today: string, apiKey: Option<string>, reply: Option<string>)
    requires NextDraw(page, today, apiKey, reply).Ok?
    ensures var lines := Split(NextDraw(page, today, apiKey, reply).value, '\n');
      |lines| >= 2 && Normalise(lines[1]) == Normalise(page.jackpotText)
  {
    var line := NextDrawAnnounces(page, today, apiKey, reply);
    MessageJackpotLine(NextDraw(page, today, apiKey, reply).value, Normalise(page.jackpotText).value, line);
  }

  /** Any text that starts with an announcement has the announced jackpot on its second line. */
  lemma MessageJackpotLine(msg: string, jackpot: nat, line: string)
    requires Announcement(jackpot, line) <= msg
    ensures var lines := Split(msg, '\n');
      |lines| >= 2 && Normalise(lines[1]) == Ok(jackpot)
  {
    var rest := msg[|Announcement(jackpot, line)|..];
    assert msg == Announcement(jackpot, line) + rest;
    AnnouncementLines(jackpot, line, rest);
    JackpotLineValue(jackpot);
  }

  /** A successful next-draw message starts with the announcement of the page's jackpot. */
  lemma NextDrawAnnounces(page: Page, today: string, apiKey: Option<string>, reply: Option<string>) returns (line: string)
    requires NextDraw(page, today, apiKey, reply).Ok?
    ensures Normalise(page.jackpotText).Ok?
    ensures Announcement(Normalise(page.jackpotText).value, line) <= NextDraw(page, today, apiKey, reply).value
  {
    DigitsOfStrip(page.jackpotText);
    var jackpot := Normalise(page.jackpotText).value;
    var comment := GenerateComment(jackpot, apiKey, reply);
    assert ComposeMessage(jackpot, Strip(page.drawDateText), today, comment) == Ok(NextDraw(page, today, apiKey, reply).value);
    line :| Announcement(jackpot, line) <= NextDraw(page, today, apiKey, reply).value;
  }

  /** The second line of an announcement, whatever follows it, is the jackpot line. */
  lemma AnnouncementLines(jackpot: nat, line: string, rest: string)
    ensures var lines := Split(Announcement(jackpot, line) + rest, '\n');
      |lines| >= 2 && lines[1] == JackpotLabel + Render(jackpot)
  {
    var jackpotLine := JackpotLabel + Render(jackpot);
    var tail := DrawLabel + line + rest;
    assert Announcement(jackpot, line) + rest == Title + ['\n'] + (jackpotLine + ['\n'] + tail);
    TitleHasNoNewline();
    JackpotLineHasNoNewline(jackpot);
    SplitPrefix(Title, '\n', jackpotLine + ['\n'] + tail);
    SplitPrefix(jackpotLine, '\n', tail);
  }

  lemma TitleHasNoNewline()
    ensures '\n' !in Title
  {
  }

  lemma JackpotLineHasNoNewline(jackpot: nat)
    ensures '\n' !in JackpotLabel + Render(jackpot)
  {
    assert forall k :: 0 <= k < |JackpotLabel| ==> JackpotLabel[k] != '\n';
    RenderNoNewline(jackpot);
  }

  /** The jackpot line normalises to the jackpot: its label holds no digit. */
  lemma JackpotLineValue(jackpot: nat)
    ensures Normalise(JackpotLabel + Render(jackpot)) == Ok(jackpot)
  {
    LabelHasNoDigit();
    NormaliseSkipsNoDigits(JackpotLabel, Render(jackpot));
    RenderRoundTrip(jackpot);
  }

  lemma LabelHasNoDigit()
    ensures DigitsOf(JackpotLabel) == []
  {
  }

  /** The rendered jackpot holds only '$', digits and commas, never a line break. */
  lemma RenderNoNewline(jackpot: nat)
    ensures '\n' !in Render(jackpot)
  {
    var parts := Groups(Decimal(jackpot));
    forall i | 0 <= i < |parts| ensures '\n' !in parts[i] {
      ConcatDigits(parts, i);
    }
    JoinExcludes(parts, ',', '\n');
  }
}
