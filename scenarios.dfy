/**
 * Clients of the setters, written as the plugin's own test cases use them:
 * what a caller can conclude from the setters' contracts alone.
 */
module MailgunScenarios {
  import opened Wrappers
  import opened Php
  import opened MailgunTrait
  import Clock

  /** The plugin's own example: `'tag1,tag2,tag3'` gives the three tags. */
  lemma TagStringExample()
    ensures TagList(TagString("tag1" + "," + "tag2" + "," + "tag3")) == ["tag1", "tag2", "tag3"]
  {
    var text := "tag1" + "," + "tag2" + "," + "tag3";
    var pieces := ["tag1", "tag2", "tag3"];
    assert pieces[1..] == ["tag2", "tag3"] && pieces[1..][1..] == ["tag3"];
    assert Implode(["tag2", "tag3"]) == "tag2" + "," + "tag3";
    assert Implode(pieces) == "tag1" + "," + ("tag2" + "," + "tag3");
    assert text == Implode(pieces);
    assert forall k :: 0 <= k < |pieces| ==> ',' !in pieces[k] by {
      assert ',' !in "tag1" && ',' !in "tag2" && ',' !in "tag3";
    }
    ExplodeImplode(pieces);
  }

  method TagScenario()
  {
    var message := new Message();
    var mailer := new Mailer(message);

    var tagged := mailer.SetTags(TagString("tag1" + "," + "tag2" + "," + "tag3"));
    TagStringExample();
    assert tagged == Ok(mailer);
    var stored := message.headers[TagHeader];
    TagTextRoundTrip(["tag1", "tag2", "tag3"]);
    assert DecodeTags(stored.s) == Some(["tag1", "tag2", "tag3"]);

    var refused := mailer.SetTags(TagArray(["tag1", "tag2", "tag3", "tag4"]));
    assert refused == Err(MailgunApiException("You can only set a max of 3 tags."));
    assert message.headers[TagHeader] == stored;
  }

  method ToggleScenario()
  {
    var message := new Message();
    var mailer := new Mailer(message);
    var self := mailer.TrackClicks();
    assert self == mailer && message.headers[TrackClicksHeader] == Str("htmlonly");
    self := mailer.EnableDkim();
    assert message.headers[DkimHeader] == Str("yes");
    self := mailer.RequireTls();
    assert message.headers[RequireTlsHeader] == Str("false");
    self := mailer.TestMode(false);
    assert message.headers[DropMessageHeader] == Str("no");
    assert message.headers[TrackClicksHeader] == Str("htmlonly");
  }

  method DeliveryScenario(now: Clock.DateTime)
  {
    var message := new Message();
    var mailer := new Mailer(message);
    var scheduled := mailer.DeliverBy(now, now);
    assert scheduled == Ok(mailer);
    assert message.headers[DeliverByHeader] == Str(Clock.Format(now));

    var tooLate := mailer.DeliverBy(Clock.DateTime(now.stamp + 4 * Clock.SecondsPerDay, now.offset), now);
    assert tooLate == Err(MailgunApiException("Delivery date can only be max of 3 days in the future."));
    assert message.headers[DeliverByHeader] == Str(Clock.Format(now));
  }
}
