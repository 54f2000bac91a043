/**
 * The draw-date text, e.g. "Mon, 12 May 2025, 6.30pm", split on commas into
 * its date and time segments.
 */
module DrawDate {
  import opened Wrappers
  import opened PyText

  /** The whitespace-trimmed second and third comma-separated segments. */
  datatype DrawSchedule = DrawSchedule(date: string, time: string)

  /** Indexing a segment that the split did not produce (the source's IndexError). */
  datatype SplitError = MissingSegment(segments: nat)

  /**
   * The date and time of the next draw: the trimmed 2nd and 3rd segments of
   * the text split on ','. A text with fewer than two commas has fewer than
   * three segments and fails.
   */
  function SplitDrawDate(text: string): (r: Result<DrawSchedule, SplitError>)
    ensures r.Ok? <==> Count(text, ',') >= 2
    ensures r.Err? ==> r.error.segments == Count(text, ',') + 1
    ensures r.Ok? ==> IsStripped(r.value.date) && ',' !in r.value.date
    ensures r.Ok? ==> IsStripped(r.value.time) && ',' !in r.value.time
  {
    var parts := Split(text, ',');
    if |parts| < 3 then Err(MissingSegment(|parts|))
    else
      var date, time := Strip(parts[1]), Strip(parts[2]);
      assert ',' !in parts[1] && ',' !in parts[2];
      Ok(DrawSchedule(date, time))
  }

  /**
   * A text made of a leading segment, a date segment, a time segment and
   * then nothing or further comma-separated segments, yields the trimmed
   * date and time segments.
   */
  lemma SplitDrawDateFields(day: string, date: string, time: string, tail: string)
    requires ',' !in day && ',' !in date && ',' !in time
    requires tail == [] || tail[0] == ','
    ensures SplitDrawDate(day + [','] + (date + [','] + (time + tail)))
         == Ok(DrawSchedule(Strip(date), Strip(time)))
  {
    FieldsSplit(day, date, time, tail);
  }

  /** The 2nd and 3rd pieces of such a text are its date and time segments. */
  lemma FieldsSplit(day: string, date: string, time: string, tail: string)
    requires ',' !in day && ',' !in date && ',' !in time
    requires tail == [] || tail[0] == ','
    ensures var parts := Split(day + [','] + (date + [','] + (time + tail)), ',');
      |parts| >= 3 && parts[1] == date && parts[2] == time
  {
    SplitPrefix(day, ',', date + [','] + (time + tail));
    SplitPrefix(date, ',', time + tail);
    SplitHead(time, ',', tail);
  }

  /**
   * Conversely, every text with at least two commas, which is exactly a
   * text that splits successfully, is such a composition,
   * so by SplitDrawDateFields its date and time are the trimmed 2nd and 3rd
   * segments.
   */
  lemma SplitDrawDateParts(text: string)
    requires Count(text, ',') >= 2
    ensures exists day, date, time, tail {:trigger day + [','] + (date + [','] + (time + tail))} ::
      && text == day + [','] + (date + [','] + (time + tail))
      && ',' !in day && ',' !in date && ',' !in time
      && (tail == [] || tail[0] == ',')
  {
    var parts := Split(text, ',');
    var tail: string := if |parts| == 3 then [] else [','] + Join(parts[3..], ',');
    JoinSplit(text, ',');
    JoinThree(parts, ',');
    assert text == parts[0] + [','] + (parts[1] + [','] + (parts[2] + tail));
    assert ',' !in parts[0] && ',' !in parts[1] && ',' !in parts[2];
  }
}
