/** The pure front of the `/start` handler: the text the pattern `/\/start(.*)/` captures,
    the trimmed start payload, and the referrer id the pattern `/^ref_(\d+)$/` accepts. */
module StartCommand {
  import opened Optional
  import opened Text

  /** The command the handler's pattern looks for, anywhere in the message text. */
  const Command: string := "/start"

  /** The prefix of a referral payload; the bot's own referral link ends in `start=ref_<id>`. */
  const RefPrefix: string := "ref_"

  predicate CommandAt(text: string, i: int)
  {
    0 <= i && i + |Command| <= |text| && text[i..i + |Command|] == Command
  }

  /** `i` is the leftmost position where `/start` occurs: where an unanchored regular
      expression starts its match. */
  ghost predicate FirstCommandAt(text: string, i: int)
  {
    CommandAt(text, i) && forall j :: 0 <= j < i ==> !CommandAt(text, j)
  }

  /** `line` is what a greedy `(.*)` captures from position `p` of `text`: the characters up
      to, and not including, the next line terminator or the end of the text. */
  ghost predicate LineAt(text: string, p: int, line: string)
  {
    0 <= p && p + |line| <= |text| && text[p..p + |line|] == line
    && (forall k :: 0 <= k < |line| ==> !IsLineTerminator(line[k]))
    && (p + |line| == |text| || IsLineTerminator(text[p + |line|]))
  }

  /** The leftmost occurrence of `/start` at or after position `from`. */
  function FindCommand(text: string, from: nat): (r: Option<nat>)
    requires from <= |text|
    ensures r.Some? ==> from <= r.value && CommandAt(text, r.value)
    ensures forall j :: from <= j && (r.None? || j < r.value) ==> !CommandAt(text, j)
    decreases |text| - from
  {
    if from + |Command| > |text| then None
    else if CommandAt(text, from) then Some(from)
    else FindCommand(text, from + 1)
  }

  /** The longest prefix of `s` that holds no line terminator. */
  function RestOfLine(s: string): (r: string)
    ensures LineAt(s, 0, r)
  {
    if s == [] || IsLineTerminator(s[0]) then []
    else
      var tail := RestOfLine(s[1..]);
      assert s[1..][..|tail|] == tail;
      [s[0]] + tail
  }

  /** `match[1]` for the pattern `/\/start(.*)/`: `None` when the message holds no `/start`
      (the handler does not run); otherwise the rest of the line after the leftmost `/start`. */
  function Capture(text: string): (r: Option<string>)
    ensures r.Some? <==> exists i :: CommandAt(text, i)
    ensures r.Some? ==> exists i :: FirstCommandAt(text, i) && LineAt(text, i + |Command|, r.value)
  {
    match FindCommand(text, 0)
    case None => None
    case Some(i) =>
      var line := RestOfLine(text[i + |Command|..]);
      assert text[i + |Command|..][..|line|] == text[i + |Command|..i + |Command| + |line|];
      assert FirstCommandAt(text, i) && LineAt(text, i + |Command|, line);
      Some(line)
  }

  /** `match[1] ? match[1].trim() : ""`: the start payload. It is empty exactly when the
      captured text is empty or all white space, and otherwise it is the trimmed capture. */
  function StartPayload(captured: string): (payload: string)
    ensures payload == [] <==> AllSpace(captured)
    ensures payload == Trim(captured)
  {
    TrimEmpty(captured);
    if captured == "" then "" else Trim(captured)
  }

  /** The referrer id in a start payload: the digits after `ref_` when the whole payload is
      `ref_` and one or more ASCII digits, and `None` (JavaScript's `null`) otherwise. */
  function ParseRef(payload: string): (r: Option<string>)
    ensures r.Some? ==> payload == RefPrefix + r.value && IsNumeral(r.value)
    ensures r.None? ==> forall d :: IsNumeral(d) ==> payload != RefPrefix + d
  {
    if |payload| > |RefPrefix| && payload[..|RefPrefix|] == RefPrefix
       && IsNumeral(payload[|RefPrefix|..])
    then
      assert payload == RefPrefix + payload[|RefPrefix|..];
      Some(payload[|RefPrefix|..])
    else
      assert forall d :: IsNumeral(d) && payload == RefPrefix + d ==>
               payload[..|RefPrefix|] == RefPrefix && payload[|RefPrefix|..] == d;
      None
  }

  /** What the handler learns from the captured text: `Bare` when the payload is empty (it
      welcomes the user and stops), otherwise the referrer id the payload names, if any. */
  datatype Start = Bare | WithPayload(referrerId: Option<string>)

  /** The start payload, read as the handler reads it. */
  function ReadStart(captured: string): (s: Start)
    ensures s.Bare? <==> AllSpace(captured)
    ensures s.WithPayload? ==> s.referrerId == ParseRef(Trim(captured))
  {
    var payload := StartPayload(captured);
    if payload == "" then Bare else WithPayload(ParseRef(payload))
  }

  /** The payload of the referral link the bot hands to user `userId`. */
  function ReferralPayload(userId: string): string
  {
    RefPrefix + userId
  }

  /** The referrer id is exactly the digit string after `ref_`. */
  lemma ParseRefOfNumeral(d: string)
    requires IsNumeral(d)
    ensures ParseRef(RefPrefix + d) == Some(d)
  {
    var r := ParseRef(RefPrefix + d);
    assert r.Some?;
    assert (RefPrefix + r.value)[|RefPrefix|..] == r.value;
    assert (RefPrefix + d)[|RefPrefix|..] == d;
  }

  /** A user's own referral link names that user: for a non-negative Telegram id the payload
      parses back to the id, and for a negative one (its `-` is not a digit) to nothing. */
  lemma ReferralLinkRoundTrip(id: int)
    ensures ParseRef(ReferralPayload(IdString(id))) == if id >= 0 then Some(IdString(id)) else None
  {
    if id >= 0 {
      ParseRefOfNumeral(IdString(id));
    } else {
      var s := IdString(id);
      assert (RefPrefix + s)[|RefPrefix|..] == s;
    }
  }

  /** Opening the link: Telegram sends `/start <payload>`. The handler captures the space and
      the payload, trims the space away and reads back the id of the user who shared the link. */
  lemma StartTextRoundTrip(id: nat)
    ensures var text := Command + " " + ReferralPayload(IdString(id));
            Capture(text) == Some(" " + ReferralPayload(IdString(id)))
            && ParseRef(StartPayload(Capture(text).value)) == Some(IdString(id))
  {
    var p := ReferralPayload(IdString(id));
    var text := Command + " " + p;
    assert CommandAt(text, 0);
    assert FindCommand(text, 0) == Some(0);
    assert text[|Command|..] == " " + p;
    NoLineTerminatorRestOfLine(" " + p);
    assert !IsSpace(p[0]) && !IsSpace(p[|p| - 1]);
    TrimOfTrimmed(p);
    assert AllSpace(" ");
    TrimLeadingSpace(" ", p);
    ReferralLinkRoundTrip(id);
  }

  /** A referral payload after any leading white space names exactly its digits. */
  lemma ReadStartOfReferral(w: string, d: string)
    requires AllSpace(w) && IsNumeral(d)
    ensures ReadStart(w + ReferralPayload(d)) == WithPayload(Some(d))
  {
    var p := ReferralPayload(d);
    assert p[0] == 'r' && !IsSpace(p[0]);
    assert p[|p| - 1] == d[|d| - 1] && !IsSpace(p[|p| - 1]);
    TrimOfTrimmed(p);
    TrimLeadingSpace(w, p);
    ParseRefOfNumeral(d);
  }

  /** A string without line terminators is captured whole. */
  lemma {:induction false} NoLineTerminatorRestOfLine(s: string)
    requires forall k :: 0 <= k < |s| ==> !IsLineTerminator(s[k])
    ensures RestOfLine(s) == s
  {
    if s != [] {
      NoLineTerminatorRestOfLine(s[1..]);
    }
  }
}
