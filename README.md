# Mailgun option setters for CakePHP, in Dafny

This project models `MailgunTrait`, the trait that the CakePHP Mailgun plugin
mixes into `MailgunMailer` and `MailgunEmail`. The trait has eleven
per-message option setters:

- `deliverBy`
- `enableDkim`
- `enableTracking`
- `requireTls`
- `setMailgunVars`
- `setRecipientVars`
- `setTags`
- `skipVerification`
- `testMode`
- `trackClicks`
- `trackOpens`

Each setter does the following:

- it validates its argument;
- it turns the argument into a literal (`yes`/`no`, `true`/`false`,
  `htmlonly`), a JSON text or a formatted date;
- it writes exactly one reserved `X-Mailgun-*` entry into the header table of
  the mailer's message;
- it returns the mailer itself, so that calls can be chained.

Two setters can throw `MailgunApiException`: `setTags` (more than three tags)
and `deliverBy` (more than three whole days away). When they throw, the header
table is unchanged.

The project has these files:

- `wrappers.dfy`: `Option`.
- `php.dfy`: the PHP values the setters receive.
  - An array is an ordered sequence of key/value entries.
  - `explode`/`implode` on a comma.
  - Decimal digits.
- `json.dfy`: `json_encode` with default flags.
  - Escaped: `"`, `\`, `/`, the short escapes, other control characters and
    non-ASCII as lowercase `\uXXXX`, with surrogate pairs above U+FFFF.
  - A list array becomes a JSON array; any other array becomes an object.
  - Its partner is a JSON reader, proved to read back every text the writer
    produces.
- `clock.dfy`: the parts of `DateTime` that `deliverBy` uses.
  - The whole-day count of `diff()->days`.
  - The `'D, d M Y H:i:s O'` rendering of `MailgunPlugin::TIMEFORMAT`, via a
    proleptic Gregorian civil date.
- `mailgun_trait.dfy`: the setters.
  - They are methods of a `Mailer` class that holds a `Message` whose header
    table is a `map`.
  - Every setter states the exact new table.
  - Every setter preserves `ReservedHeadersValid`: every reserved header holds
    a value of the shape its setter produces.
- `scenarios.dfy`: client code that follows the plugin's own test cases.

The docblock of `deliverBy` (src/Mailer/MailgunTrait.php:40) refuses a
delivery date "greater than 3 days". The exception message (line 50) speaks of
a date more than three days in the future. The test at line 49 counts days in
either direction, and the model follows that test:

- `$time->diff(new DateTime())->days` is the absolute number of whole days
  between the two times.
- So a time four or more days in the past is refused too, with the same
  message about the future (`MailgunTrait.DeliveryWindow`).
- A time three days and 23 hours ahead is still accepted
  (`MailgunTrait.DeliveryWindowEdges`).

## Model

| member | source | states |
|---|---|---|
| Php.Explode | src/Mailer/MailgunTrait.php:149-151 | `explode(',', s)` returns one more piece than `s` has commas, and no piece contains a comma |
| Php.ImplodeExplode | src/Mailer/MailgunTrait.php:150 | joining the pieces of `explode(',', s)` with commas gives `s` back: nothing is lost or trimmed |
| Php.ExplodeImplode | src/Mailer/MailgunTrait.php:150 | cutting a comma-joined list of comma-free tags gives exactly those tags back |
| Json.FromPhpItemsAt | src/Mailer/MailgunTrait.php:156 | element `k` of a list array becomes element `k` of the JSON array, in order |
| Json.Encode | src/Mailer/MailgunTrait.php:131 | the text of `json_encode($vars)` reads back as the JSON value of the PHP array: nothing is lost |
| Json.DecodeSerialize | src/Mailer/MailgunTrait.php:131 | every JSON value the writer renders reads back as the same value, so the stored text loses nothing |
| Json.LeadingZeroRefused | src/Mailer/MailgunTrait.php:131 | for every text that starts with `0` and another digit, the reader refuses it as a value, with a minus sign in front, as the first item of an array and as a whole text, as JSON's number grammar does |
| Json.IntRoundTrip | src/Mailer/MailgunTrait.php:131 | an integer written in decimal reads back as the same integer, sign included |
| Clock.DiffDays | src/Mailer/MailgunTrait.php:49 | `diff()->days` is the number of whole days in the absolute distance between the two instants |
| Clock.Format | src/Mailer/MailgunTrait.php:52 | `$time->format(MailgunPlugin::TIMEFORMAT)`: it has no contract of its own; `Clock.CivilOfSound`, `Clock.FormatWidth` and `Clock.FormatEpoch` state its properties |
| Clock.CivilOfSound | src/MailgunPlugin.php:30 | the civil date and time rendered for an instant denote that instant at its offset, and the weekday follows from the day count |
| Clock.FormatWidth | src/MailgunPlugin.php:30 | for years 0-9999 and offsets under 100 hours, the `D, d M Y H:i:s O` text is 31 characters long |
| Clock.EpochCivil | src/MailgunPlugin.php:30 | instant 0 at offset 0 is Thursday, 1 January 1970, 00:00:00 |
| Clock.FormatEpoch | src/MailgunPlugin.php:30 | the Unix epoch in UTC renders as `Thu, 01 Jan 1970 00:00:00 +0000` |
| MailgunTrait.ClickTracking | src/Mailer/MailgunTrait.php:203-212 | the value is `htmlonly` exactly when no argument is given, `yes` exactly for true and `no` exactly for false |
| MailgunTrait.TagList | src/Mailer/MailgunTrait.php:147-151 | an array argument is used unchanged; a string becomes its comma-separated pieces, which join back to the string and contain no comma |
| MailgunTrait.TagTextRoundTrip | src/Mailer/MailgunTrait.php:156 | the stored `X-Mailgun-Tag` text decodes to exactly the accepted tags, in order |
| MailgunTrait.TagStringLimit | src/Mailer/MailgunTrait.php:149-154 | a tag string is refused exactly when it contains three or more commas |
| MailgunTrait.DeliveryRefused | src/Mailer/MailgunTrait.php:49 | the test `diff(new DateTime())->days > 3`: it has no contract of its own; `MailgunTrait.DeliveryWindow` states which times it refuses |
| MailgunTrait.DeliveryWindow | src/Mailer/MailgunTrait.php:49-51 | a delivery time is refused exactly when it is at least 4 days (345600 s) from now, in the past or in the future |
| MailgunTrait.DeliveryWindowEdges | tests/TestCase/Mailer/MailgunTraitTest.php:38-45 | taking the clock reading that builds the time and the one `deliverBy` makes as the same `now`: a time exactly 4 days ahead is refused, as the test expects; one 4 days minus one second ahead is accepted; one exactly 4 days in the past is refused. The test reads the clock twice, and the two readings agree here only when both fall in the same second |
| MailgunTrait.PutKeepsValid | src/Mailer/MailgunTrait.php:52 | writing one acceptable value under a reserved name keeps every reserved header well-shaped |
| MailgunTrait.TagTextOk | src/Mailer/MailgunTrait.php:152-156 | the tag text written for at most three tags is acceptable under `X-Mailgun-Tag` |
| MailgunTrait.RecipientVarsOk | src/Mailer/MailgunTrait.php:131 | the `X-Mailgun-Recipient-Variables` text reads back as the JSON value of the array passed in |
| MailgunTrait.Message.constructor | src/Mailer/MailgunTrait.php:29 | a fresh message has an empty header table |
| MailgunTrait.Message.AddHeader | src/Mailer/MailgunTrait.php:52 | adding a header sets that one name and changes no other entry |
| MailgunTrait.Mailer.constructor | src/Mailer/MailgunTrait.php:29 | a mailer is bound to its message |
| MailgunTrait.Mailer.DeliverBy | src/Mailer/MailgunTrait.php:47-55 | refused: the exception with its exact message, table unchanged; otherwise the formatted time under `X-Mailgun-Deliver-By` and the mailer returned; the table stays valid |
| MailgunTrait.Mailer.EnableDkim | src/Mailer/MailgunTrait.php:64-69 | `X-Mailgun-Dkim` becomes `yes`/`no` from the flag (default true), nothing else changes, the mailer is returned, the table stays valid |
| MailgunTrait.Mailer.EnableTracking | src/Mailer/MailgunTrait.php:80-85 | `X-Mailgun-Track` becomes `yes`/`no` (default true), nothing else changes, the mailer is returned, the table stays valid |
| MailgunTrait.Mailer.RequireTls | src/Mailer/MailgunTrait.php:97-102 | `X-Mailgun-Require-TLS` becomes `true`/`false` (default false), nothing else changes, the mailer is returned, the table stays valid |
| MailgunTrait.Mailer.SetMailgunVars | src/Mailer/MailgunTrait.php:113-118 | `X-Mailgun-Variables` holds the array itself, not its JSON text; nothing else changes; the mailer is returned; the table stays valid |
| MailgunTrait.Mailer.SetRecipientVars | src/Mailer/MailgunTrait.php:129-134 | `X-Mailgun-Recipient-Variables` holds the JSON text of the array; nothing else changes; the mailer is returned; the table stays valid |
| MailgunTrait.Mailer.SetTags | src/Mailer/MailgunTrait.php:147-159 | more than three tags: the exception with its exact message, table unchanged; otherwise the JSON list of the tags under `X-Mailgun-Tag` and the mailer returned; the table stays valid |
| MailgunTrait.Mailer.SkipVerification | src/Mailer/MailgunTrait.php:171-176 | `X-Mailgun-Skip-Verification` becomes `true`/`false` (default false), nothing else changes, the mailer is returned, the table stays valid |
| MailgunTrait.Mailer.TestMode | src/Mailer/MailgunTrait.php:187-192 | `X-Mailgun-Drop-Message` becomes `yes`/`no` (default true), nothing else changes, the mailer is returned, the table stays valid |
| MailgunTrait.Mailer.TrackClicks | src/Mailer/MailgunTrait.php:203-212 | `X-Mailgun-Track-Clicks` becomes `htmlonly` with no argument and `yes`/`no` otherwise; nothing else changes; the mailer is returned; the table stays valid |
| MailgunTrait.Mailer.TrackOpens | src/Mailer/MailgunTrait.php:223-228 | `X-Mailgun-Track-Opens` becomes `yes`/`no` (default false), nothing else changes, the mailer is returned, the table stays valid |
| MailgunScenarios.TagStringExample | tests/TestCase/Mailer/MailgunTraitTest.php:144-151 | `'tag1,tag2,tag3'` gives exactly the tags `tag1`, `tag2`, `tag3` |

## Left out

- `MailgunTransport` is not part of this model. It wraps the Mailgun SDK and copies From, To, Subject and the HTML body into one API call. It reads none of the `X-Mailgun-*` headers set here.
- The plugin bootstrap is not part of this model. Only the `TIMEFORMAT` constant of `MailgunPlugin` is used.
- The CakePHP `Message` is reduced to its header table, a `map` from name to value. The order in which headers were inserted is not modelled.
- MailgunTrait.Mailer.SetMailgunVars: `addHeaders` merges with `Hash::merge`, so when the table already holds an array under `X-Mailgun-Variables`, the two arrays are merged key by key. The model states a plain overwrite. All other headers hold strings, and for strings the merge is an overwrite.
- The current time of `new DateTime()` is a parameter, `now`. Reading the system clock is not modelled, and neither is the gap between two readings, such as the one the test at tests/TestCase/Mailer/MailgunTraitTest.php:43 makes before `deliverBy` makes its own.
- Time zones are a fixed offset per `DateTime`. Daylight-saving transitions, leap seconds and microseconds are not modelled.
- Only PHP's proleptic Gregorian calendar is rendered. Years outside 0-9999 are rendered as PHP does (at least four digits, with a minus sign before year 0), but the width lemma covers only 0-9999.
- PHP arrays are taken with their keys already normalised: keys are distinct, and no string key is a canonical integer. PHP stores `'0'` as the integer key `0`. `Php.Value` can also hold arrays PHP cannot, and on those `Json.FromPhp` differs from `json_encode`.
- `json_encode` is modelled only for null, booleans, integers, UTF-8 strings and arrays. Floats, objects, non-UTF-8 strings (where `json_encode` returns `false`) and depth limits are not modelled.
- `setTags` given an array of non-string values, or an array that is not a list, is not modelled. `TagsArg` admits only a list of strings or a string.
- The `\Exception` that `DateTime` may throw for an invalid date cannot arise: every model `DateTime` is valid.
