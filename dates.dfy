/** `_parse_date` (main.py:86-100): try a fixed list of date formats in
    order; the first that parses gives the timestamp, and 0 is the default.
    Matching one format is `datetime.strptime(...).timestamp()`, which this
    model receives as the parameter `parse`. */
module Dates {
  import opened Wrappers

  /** The three formats, as `strptime` patterns. */
  datatype DateFormat =
    | Rfc822     // "%a, %d %b %Y %H:%M:%S %z"
    | IsoOffset  // "%Y-%m-%dT%H:%M:%S%z"
    | IsoZulu    // "%Y-%m-%dT%H:%M:%SZ"

  /** The order in which `_parse_date` tries them. */
  const Formats: seq<DateFormat> := [Rfc822, IsoOffset, IsoZulu]

  /** One format applied to one text: the epoch seconds it denotes, or
      `None` when `strptime` raises. */
  type DateParser = (DateFormat, string) -> Option<int>

  /** One attempt inside the loop. The date text handed over is Python's
      `None` when an Atom `updated` element has no text; `strptime` then
      raises a `TypeError`, which the loop swallows like any other failure. */
  function Attempt(parse: DateParser, f: DateFormat, text: Option<string>): Option<int>
  {
    if text.None? then None else parse(f, text.value)
  }

  /** Index of the first format in `fs` whose attempt succeeds, or `|fs|`. */
  function FirstSuccess(fs: seq<DateFormat>, text: Option<string>, parse: DateParser): (k: nat)
    ensures k <= |fs|
    ensures k < |fs| ==> Attempt(parse, fs[k], text).Some?
    ensures forall j :: 0 <= j < k ==> Attempt(parse, fs[j], text).None?
  {
    if fs == [] then 0
    else if Attempt(parse, fs[0], text).Some? then 0
    else 1 + FirstSuccess(fs[1..], text, parse)
  }

  /** The timestamp `_parse_date` returns: the value of the first successful
      attempt in `Formats`, 0 when none succeeds. */
  function Timestamp(text: Option<string>, parse: DateParser): int
  {
    var k := FirstSuccess(Formats, text, parse);
    if k < |Formats| then Attempt(parse, Formats[k], text).value else 0
  }

  /** The ordering is a tie-break policy: a format is consulted only when
      every earlier one failed, so a later format never overrides an earlier
      success, and when none succeeds the result is 0. */
  lemma TimestampFirstWins(text: Option<string>, parse: DateParser, i: nat)
    requires i < |Formats|
    requires Attempt(parse, Formats[i], text).Some?
    requires forall j :: 0 <= j < i ==> Attempt(parse, Formats[j], text).None?
    ensures Timestamp(text, parse) == Attempt(parse, Formats[i], text).value
  {
  }

  lemma TimestampDefault(text: Option<string>, parse: DateParser)
    requires forall j :: 0 <= j < |Formats| ==> Attempt(parse, Formats[j], text).None?
    ensures Timestamp(text, parse) == 0
  {
  }

  /** A missing date text (`None`) gets timestamp 0 whatever the parser. */
  lemma TimestampOfNone(parse: DateParser)
    ensures Timestamp(None, parse) == 0
  {
  }

  /** `_parse_date(text)`: the loop over `Formats` with its early return. */
  method ParseDate(text: Option<string>, parse: DateParser) returns (ts: int)
    ensures ts == Timestamp(text, parse)
  {
    for i := 0 to |Formats|
      invariant forall j :: 0 <= j < i ==> Attempt(parse, Formats[j], text).None?
    {
      var attempt := Attempt(parse, Formats[i], text);
      if attempt.Some? {
        TimestampFirstWins(text, parse, i);
        return attempt.value;
      }
    }
    TimestampDefault(text, parse);
    return 0;
  }
}
