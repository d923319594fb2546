/**
 * The Mailgun option setters that `MailgunTrait` mixes into `MailgunMailer`
 * and `MailgunEmail`. Each setter checks its argument, turns it into a
 * literal, a JSON text or a formatted date, writes exactly one reserved
 * `X-Mailgun-*` entry into the header table of the mailer's message, and
 * returns the mailer itself so that calls can be chained. A setter that
 * throws leaves the table as it was.
 */
module MailgunTrait {
  import opened Wrappers
  import opened Php
  import Json
  import Clock

  // ----- reserved header names -----

  const DeliverByHeader: string := "X-Mailgun-Deliver-By"
  const DkimHeader: string := "X-Mailgun-Dkim"
  const TrackHeader: string := "X-Mailgun-Track"
  const RequireTlsHeader: string := "X-Mailgun-Require-TLS"
  const VariablesHeader: string := "X-Mailgun-Variables"
  const RecipientVariablesHeader: string := "X-Mailgun-Recipient-Variables"
  const TagHeader: string := "X-Mailgun-Tag"
  const SkipVerificationHeader: string := "X-Mailgun-Skip-Verification"
  const DropMessageHeader: string := "X-Mailgun-Drop-Message"
  const TrackClicksHeader: string := "X-Mailgun-Track-Clicks"
  const TrackOpensHeader: string := "X-Mailgun-Track-Opens"

  // ----- limits and errors -----

  const MaxTags: nat := 3
  const MaxDeliveryDays: nat := 3

  const TooManyTagsMessage: string := "You can only set a max of 3 tags."
  const DeliveryTooLateMessage: string := "Delivery date can only be max of 3 days in the future."

  /** `MailgunApiException`, with the message it is thrown with. */
  datatype ApiError = MailgunApiException(message: string)

  datatype Result<+T> = Ok(value: T) | Err(error: ApiError)

  // ----- literals -----

  /** The literal pair of `enableDkim`, `enableTracking`, `testMode` and `trackOpens`. */
  function YesNo(b: bool): string
  {
    if b then "yes" else "no"
  }

  /** The literal pair of `requireTls` and `skipVerification`. */
  function TrueFalse(b: bool): string
  {
    if b then "true" else "false"
  }

  /** `trackClicks`: no argument means HTML-only click tracking. */
  function ClickTracking(track: Option<bool>): (s: string)
    ensures s == "htmlonly" <==> track.None?
    ensures s == "yes" <==> track == Some(true)
    ensures s == "no" <==> track == Some(false)
  {
    match track
    case None => "htmlonly"
    case Some(b) => YesNo(b)
  }

  // ----- tags -----

  /** What `setTags` accepts: an array of tags or one comma-separated string. */
  datatype TagsArg = TagArray(tags: seq<string>) | TagString(s: string)

  /**
   * The tag list `setTags` goes on with: an array as it is, a string cut at
   * every comma, untrimmed.
   */
  function TagList(arg: TagsArg): (tags: seq<string>)
    ensures arg.TagArray? ==> tags == arg.tags
    ensures arg.TagString? ==> |tags| == Commas(arg.s) + 1 && Implode(tags) == arg.s
    ensures arg.TagString? ==> forall k :: 0 <= k < |tags| ==> ',' !in tags[k]
  {
    match arg
    case TagArray(tags) => tags
    case TagString(s) => ImplodeExplode(s); Explode(s)
  }

  /** `json_encode` of a list of tags: the text stored under `X-Mailgun-Tag`. */
  function TagText(tags: seq<string>): string
  {
    Json.Encode(Arr(StringList(tags)))
  }

  /** Reads a JSON array of strings back into the strings. */
  function DecodeTags(s: string): Option<seq<string>>
  {
    match Json.Decode(s)
    case Some(JArray(items)) =>
      if forall k :: 0 <= k < |items| ==> items[k].JString?
      then Some(seq(|items|, k requires 0 <= k < |items| => items[k].s))
      else None
    case _ => None
  }

  /** The stored tag text holds exactly the tags, in order: nothing is lost, added or reordered. */
  lemma TagTextRoundTrip(tags: seq<string>)
    ensures DecodeTags(TagText(tags)) == Some(tags)
  {
    var entries := StringList(tags);
    var items := Json.FromPhpItems(entries);
    forall k | 0 <= k < |items|
      ensures items[k] == Json.JString(tags[k])
    {
      Json.FromPhpItemsAt(entries, k);
    }
    Json.DecodeSerialize(Json.JArray(items));
    assert seq(|items|, k requires 0 <= k < |items| => items[k].s) == tags;
  }

  /** A tag string is refused exactly when it holds three commas or more. */
  lemma TagStringLimit(s: string)
    ensures |TagList(TagString(s))| > MaxTags <==> Commas(s) >= 3
  {
  }

  // ----- delivery time -----

  /**
   * The check of `deliverBy`: it counts whole days of the absolute distance
   * from now, so it refuses a time four or more days away on either side.
   */
  predicate DeliveryRefused(time: Clock.DateTime, now: Clock.DateTime)
  {
    Clock.DiffDays(time, now) > MaxDeliveryDays
  }

  /** The refused times are exactly those at least four days (345600 s) from now, in the past or in the future. */
  lemma DeliveryWindow(time: Clock.DateTime, now: Clock.DateTime)
    ensures DeliveryRefused(time, now) <==>
      time.stamp >= now.stamp + 4 * Clock.SecondsPerDay || time.stamp <= now.stamp - 4 * Clock.SecondsPerDay
  {
    var d := Clock.DiffDays(time, now);
    if d > 3 {
      assert d * Clock.SecondsPerDay >= 4 * Clock.SecondsPerDay;
    } else {
      assert (d + 1) * Clock.SecondsPerDay <= 4 * Clock.SecondsPerDay;
    }
  }

  /**
   * The edges of the window as the code draws them: a time three days and
   * 86399 seconds ahead is still accepted, one exactly four days ahead is
   * refused, and so is one four days in the past, with the message about the
   * future. `now` is one reading of the clock, used both to build the time and
   * by `deliverBy`; a test that reads the clock twice matches this only when
   * both readings fall in the same second.
   */
  lemma DeliveryWindowEdges(now: Clock.DateTime)
    ensures !DeliveryRefused(Clock.DateTime(now.stamp + 4 * Clock.SecondsPerDay - 1, now.offset), now)
    ensures DeliveryRefused(Clock.DateTime(now.stamp + 4 * Clock.SecondsPerDay, now.offset), now)
    ensures DeliveryRefused(Clock.DateTime(now.stamp - 4 * Clock.SecondsPerDay, now.offset), now)
  {
    DeliveryWindow(Clock.DateTime(now.stamp + 4 * Clock.SecondsPerDay, now.offset), now);
    DeliveryWindow(Clock.DateTime(now.stamp + 4 * Clock.SecondsPerDay - 1, now.offset), now);
    DeliveryWindow(Clock.DateTime(now.stamp - 4 * Clock.SecondsPerDay, now.offset), now);
  }

  // ----- the invariant of the reserved headers -----

  /**
   * What the setters ever store under a reserved header name. Other header
   * names, which the host application may set as it likes, are unconstrained.
   */
  ghost predicate ReservedValueOk(name: string, v: Value)
  {
    if name == TagHeader then
      v.Str? && DecodeTags(v.s).Some? && |DecodeTags(v.s).value| <= MaxTags
    else if name == DeliverByHeader then
      exists t: Clock.DateTime :: v == Str(Clock.Format(t))
    else if name in {DkimHeader, TrackHeader, DropMessageHeader, TrackOpensHeader} then
      v == Str("yes") || v == Str("no")
    else if name in {RequireTlsHeader, SkipVerificationHeader} then
      v == Str("true") || v == Str("false")
    else if name == TrackClicksHeader then
      v == Str("htmlonly") || v == Str("yes") || v == Str("no")
    else if name == VariablesHeader then
      v.Arr?
    else if name == RecipientVariablesHeader then
      v.Str? && Json.Decode(v.s).Some?
    else
      true
  }

  ghost predicate ReservedHeadersValid(headers: map<string, Value>)
  {
    forall name :: name in headers ==> ReservedValueOk(name, headers[name])
  }

  /** Writing one acceptable value keeps the table valid. */
  lemma PutKeepsValid(headers: map<string, Value>, name: string, v: Value)
    requires ReservedHeadersValid(headers)
    requires ReservedValueOk(name, v)
    ensures ReservedHeadersValid(headers[name := v])
  {
  }

  /** Every tag text `setTags` writes is acceptable under `X-Mailgun-Tag`. */
  lemma TagTextOk(tags: seq<string>)
    requires |tags| <= MaxTags
    ensures ReservedValueOk(TagHeader, Str(TagText(tags)))
  {
    TagTextRoundTrip(tags);
  }

  /** Every text `setRecipientVars` writes reads back as the JSON value of its argument. */
  lemma RecipientVarsOk(vars: seq<Entry>)
    ensures Json.Decode(Json.Encode(Arr(vars))) == Some(Json.FromPhp(Arr(vars)))
    ensures ReservedValueOk(RecipientVariablesHeader, Str(Json.Encode(Arr(vars))))
  {
    Json.DecodeSerialize(Json.FromPhp(Arr(vars)));
  }

  // ----- the message and the mailer -----

  /** The part of CakePHP's `Message` the setters use: its header table. */
  class Message {
    var headers: map<string, Value>

    constructor ()
      ensures headers == map[]
    {
      headers := map[];
    }

    /** `addHeaders([name => value])`, taken as inserting or overwriting the one entry. */
    method AddHeader(name: string, value: Value)
      modifies this
      ensures headers == old(headers)[name := value]
    {
      headers := headers[name := value];
    }
  }

  /** `MailgunMailer` (or `MailgunEmail`) with the trait's methods. */
  class Mailer {
    const message: Message

    constructor (message: Message)
      ensures this.message == message
    {
      this.message := message;
    }

    /** `deliverBy($time)`, with the moment of the call passed in as `now`. */
    method DeliverBy(time: Clock.DateTime, now: Clock.DateTime) returns (r: Result<Mailer>)
      modifies message
      ensures DeliveryRefused(time, now) ==>
        r == Err(MailgunApiException(DeliveryTooLateMessage)) && message.headers == old(message.headers)
      ensures !DeliveryRefused(time, now) ==>
        r == Ok(this) && message.headers == old(message.headers)[DeliverByHeader := Str(Clock.Format(time))]
      ensures ReservedHeadersValid(old(message.headers)) ==> ReservedHeadersValid(message.headers)
    {
      if Clock.DiffDays(time, now) > MaxDeliveryDays {
        return Err(MailgunApiException(DeliveryTooLateMessage));
      }
      ghost var before := message.headers;
      message.AddHeader(DeliverByHeader, Str(Clock.Format(time)));
      if ReservedHeadersValid(before) {
        PutKeepsValid(before, DeliverByHeader, Str(Clock.Format(time)));
      }
      return Ok(this);
    }

    /** `enableDkim($enable = true)`. */
    method EnableDkim(enable: bool := true) returns (self: Mailer)
      modifies message
      ensures self == this
      ensures message.headers == old(message.headers)[DkimHeader := Str(YesNo(enable))]
      ensures ReservedHeadersValid(old(message.headers)) ==> ReservedHeadersValid(message.headers)
    {
      message.AddHeader(DkimHeader, Str(YesNo(enable)));
      return this;
    }

    /** `enableTracking($track = true)`. */
    method EnableTracking(track: bool := true) returns (self: Mailer)
      modifies message
      ensures self == this
      ensures message.headers == old(message.headers)[TrackHeader := Str(YesNo(track))]
      ensures ReservedHeadersValid(old(message.headers)) ==> ReservedHeadersValid(message.headers)
    {
      message.AddHeader(TrackHeader, Str(YesNo(track)));
      return this;
    }

    /** `requireTls($tls = false)`. */
    method RequireTls(tls: bool := false) returns (self: Mailer)
      modifies message
      ensures self == this
      ensures message.headers == old(message.headers)[RequireTlsHeader := Str(TrueFalse(tls))]
      ensures ReservedHeadersValid(old(message.headers)) ==> ReservedHeadersValid(message.headers)
    {
      message.AddHeader(RequireTlsHeader, Str(TrueFalse(tls)));
      return this;
    }

    /** `setMailgunVars($vars)`: the array itself is stored, not its JSON text. */
    method SetMailgunVars(vars: seq<Entry>) returns (self: Mailer)
      modifies message
      ensures self == this
      ensures message.headers == old(message.headers)[VariablesHeader := Arr(vars)]
      ensures ReservedHeadersValid(old(message.headers)) ==> ReservedHeadersValid(message.headers)
    {
      message.AddHeader(VariablesHeader, Arr(vars));
      return this;
    }

    /** `setRecipientVars($vars)`: the JSON text of the array is stored. */
    method SetRecipientVars(vars: seq<Entry>) returns (self: Mailer)
      modifies message
      ensures self == this
      ensures message.headers == old(message.headers)[RecipientVariablesHeader := Str(Json.Encode(Arr(vars)))]
      ensures ReservedHeadersValid(old(message.headers)) ==> ReservedHeadersValid(message.headers)
    {
      ghost var before := message.headers;
      message.AddHeader(RecipientVariablesHeader, Str(Json.Encode(Arr(vars))));
      if ReservedHeadersValid(before) {
        RecipientVarsOk(vars);
        PutKeepsValid(before, RecipientVariablesHeader, Str(Json.Encode(Arr(vars))));
      }
      return this;
    }

    /** `setTags($tags)`. */
    method SetTags(tags: TagsArg) returns (r: Result<Mailer>)
      modifies message
      ensures |TagList(tags)| > MaxTags ==>
        r == Err(MailgunApiException(TooManyTagsMessage)) && message.headers == old(message.headers)
      ensures |TagList(tags)| <= MaxTags ==>
        r == Ok(this) && message.headers == old(message.headers)[TagHeader := Str(TagText(TagList(tags)))]
      ensures ReservedHeadersValid(old(message.headers)) ==> ReservedHeadersValid(message.headers)
    {
      var list := if tags.TagString? then Explode(tags.s) else tags.tags;
      if |list| > MaxTags {
        return Err(MailgunApiException(TooManyTagsMessage));
      }
      ghost var before := message.headers;
      message.AddHeader(TagHeader, Str(Json.Encode(Arr(StringList(list)))));
      if ReservedHeadersValid(before) {
        TagTextOk(list);
        PutKeepsValid(before, TagHeader, Str(TagText(list)));
      }
      return Ok(this);
    }

    /** `skipVerification($verify = false)`. */
    method SkipVerification(verify: bool := false) returns (self: Mailer)
      modifies message
      ensures self == this
      ensures message.headers == old(message.headers)[SkipVerificationHeader := Str(TrueFalse(verify))]
      ensures ReservedHeadersValid(old(message.headers)) ==> ReservedHeadersValid(message.headers)
    {
      message.AddHeader(SkipVerificationHeader, Str(TrueFalse(verify)));
      return this;
    }

    /** `testMode($drop = true)`. */
    method TestMode(drop: bool := true) returns (self: Mailer)
      modifies message
      ensures self == this
      ensures message.headers == old(message.headers)[DropMessageHeader := Str(YesNo(drop))]
      ensures ReservedHeadersValid(old(message.headers)) ==> ReservedHeadersValid(message.headers)
    {
      message.AddHeader(DropMessageHeader, Str(YesNo(drop)));
      return this;
    }

    /** `trackClicks($track = null)`. */
    method TrackClicks(track: Option<bool> := None) returns (self: Mailer)
      modifies message
      ensures self == this
      ensures message.headers == old(message.headers)[TrackClicksHeader := Str(ClickTracking(track))]
      ensures ReservedHeadersValid(old(message.headers)) ==> ReservedHeadersValid(message.headers)
    {
      if track.None? {
        message.AddHeader(TrackClicksHeader, Str("htmlonly"));
      } else {
        message.AddHeader(TrackClicksHeader, Str(if track.value then "yes" else "no"));
      }
      return this;
    }

    /** `trackOpens($track = false)`. */
    method TrackOpens(track: bool := false) returns (self: Mailer)
      modifies message
      ensures self == this
      ensures message.headers == old(message.headers)[TrackOpensHeader := Str(YesNo(track))]
      ensures ReservedHeadersValid(old(message.headers)) ==> ReservedHeadersValid(message.headers)
    {
      message.AddHeader(TrackOpensHeader, Str(YesNo(track)));
      return this;
    }
  }
}
