/** The notification dispatcher: `send_notification` in agents.py (three
    channels) and its two-channel variant in notify.py. Each provider call
    is an oracle outcome; the dispatcher turns the requested channels and
    those outcomes into the channel-to-status map it returns. */
module Dispatch {
  import opened Text

  datatype Channel = Sms | WhatsApp | Call
  {
    /** The channel's name in the caller's channel list and the result map. */
    function Key(): string
    {
      match this
      case Sms => "sms"
      case WhatsApp => "whatsapp"
      case Call => "call"
    }
  }

  /** What one provider call did: a message/call SID, or the text of the
      exception it raised. */
  datatype ProviderOutcome = Delivered(sid: string) | Failed(error: string)

  const Check: string := "\U{2705}"
  const Cross: string := "\U{274C}"

  /** The default channel list of agents.py, also used by every pipeline
      call. */
  const AllChannels: seq<string> := ["sms", "whatsapp", "call"]

  /** The default channel list of notify.py. */
  const NotifyDefaultChannels: seq<string> := ["sms", "whatsapp"]

  function SentText(c: Channel): string
  {
    match c
    case Sms => " SMS sent (SID: "
    case WhatsApp => " WhatsApp sent (SID: "
    case Call => " Call initiated (SID: "
  }

  function FailedText(c: Channel): string
  {
    match c
    case Sms => " SMS failed: "
    case WhatsApp => " WhatsApp failed: "
    case Call => " Call failed: "
  }

  /** The status string recorded for one channel: a success starts with
      the check mark and embeds the SID, a failure starts with the cross
      and embeds the error. */
  function Status(c: Channel, o: ProviderOutcome): (r: string)
    ensures o.Delivered? ==> StartsWith(r, Check) && Contains(r, o.sid)
    ensures o.Failed? ==> StartsWith(r, Cross) && Contains(r, o.error)
  {
    match o
    case Delivered(sid) =>
      ContainsMiddle(Check + SentText(c), sid, ")");
      Check + SentText(c) + sid + ")"
    case Failed(e) =>
      assert Cross + FailedText(c) + e == Cross + FailedText(c) + e + "";
      ContainsMiddle(Cross + FailedText(c), e, "");
      Cross + FailedText(c) + e
  }

  /** The channels of `channels` the dispatcher knows. */
  function Requested(channels: seq<string>): (r: set<Channel>)
    ensures forall c :: c in r <==> c.Key() in channels
  {
    set c | c in {Sms, WhatsApp, Call} && c.Key() in channels
  }

  /** One guarded `try`/`except` block: record the channel's outcome when
      it was requested, leave the map alone otherwise. */
  function Attempt(results: map<Channel, string>, channels: seq<string>, c: Channel,
                   provider: Channel -> ProviderOutcome): map<Channel, string>
  {
    if c.Key() in channels then results[c := Status(c, provider(c))] else results
  }

  /** agents.py `send_notification`: the keys are exactly the requested
      known channels, and each entry is that channel's own outcome, so a
      failing channel neither removes nor alters any other entry. */
  function SendNotification(channels: seq<string>, provider: Channel -> ProviderOutcome)
    : (r: map<Channel, string>)
    ensures r.Keys == Requested(channels)
    ensures forall c :: c in r ==> r[c] == Status(c, provider(c))
  {
    var afterSms := Attempt(map[], channels, Sms, provider);
    var afterWhatsApp := Attempt(afterSms, channels, WhatsApp, provider);
    Attempt(afterWhatsApp, channels, Call, provider)
  }

  /** notify.py `send_notification`: the same blocks for SMS and WhatsApp
      only; a requested "call" is ignored. */
  function SendNotificationTwoChannel(channels: seq<string>, provider: Channel -> ProviderOutcome)
    : (r: map<Channel, string>)
    ensures r.Keys == Requested(channels) - {Call}
    ensures r.Keys <= {Sms, WhatsApp}
    ensures forall c :: c in r ==> r[c] == Status(c, provider(c))
  {
    var afterSms := Attempt(map[], channels, Sms, provider);
    Attempt(afterSms, channels, WhatsApp, provider)
  }

  /** Failure isolation: the entry of a channel depends on that channel's
      provider outcome alone. */
  lemma EntryDependsOnOwnOutcome(channels: seq<string>, p1: Channel -> ProviderOutcome,
                                 p2: Channel -> ProviderOutcome, c: Channel)
    requires p1(c) == p2(c)
    ensures c in SendNotification(channels, p1) <==> c in SendNotification(channels, p2)
    ensures c in SendNotification(channels, p1) ==>
              SendNotification(channels, p1)[c] == SendNotification(channels, p2)[c]
  {
  }

  /** An SMS failure keeps the SMS key, marked failed, and leaves a
      delivered WhatsApp entry in place. */
  lemma PartialFailureKeepsBoth(provider: Channel -> ProviderOutcome)
    requires provider(Sms).Failed? && provider(WhatsApp).Delivered?
    ensures var r := SendNotification(NotifyDefaultChannels, provider);
            && r.Keys == {Sms, WhatsApp}
            && StartsWith(r[Sms], Cross) && StartsWith(r[WhatsApp], Check)
    ensures var r := SendNotificationTwoChannel(NotifyDefaultChannels, provider);
            && r.Keys == {Sms, WhatsApp}
            && StartsWith(r[Sms], Cross) && StartsWith(r[WhatsApp], Check)
  {
  }

  /** The two-channel dispatcher is the three-channel one with the call
      entry dropped. */
  lemma TwoChannelIsRestriction(channels: seq<string>, provider: Channel -> ProviderOutcome)
    ensures SendNotificationTwoChannel(channels, provider)
            == SendNotification(channels, provider) - {Call}
  {
  }

  /** Asking for no channel attempts nothing. */
  lemma NoChannelsNoEntries(provider: Channel -> ProviderOutcome)
    ensures SendNotification([], provider) == map[]
    ensures SendNotificationTwoChannel([], provider) == map[]
  {
  }

  // ---------------------------------------------------------------------
  // How the result page reads a status string

  /** app.py's test for a delivered channel: `"success" in status.lower()`. */
  predicate ShownAsDelivered(status: string)
  {
    Contains(Lower(status), "success")
  }

  /** The intended test: the status line starts with the check mark. */
  predicate IsDelivered(status: string)
  {
    StartsWith(status, Check)
  }

  /** The corrected test recognises delivery exactly. */
  lemma IsDeliveredExact(c: Channel, o: ProviderOutcome)
    ensures IsDelivered(Status(c, o)) <==> o.Delivered?
  {
    if o.Failed? {
      var s := Status(c, o);
      assert s[0] == Cross[0] != Check[0];
    }
  }

  predicate HasNoU(s: string)
  {
    'u' !in s && 'U' !in s
  }

  lemma LowerHasNoU(s: string)
    requires HasNoU(s)
    ensures forall i :: 0 <= i < |Lower(s)| ==> Lower(s)[i] != 'u'
  {
  }

  lemma FixedTextsHaveNoU(c: Channel)
    ensures HasNoU(Check + SentText(c)) && HasNoU(")")
  {
    assert HasNoU(Check);
    assert HasNoU(SentText(c));
  }

  /** As written, the result page shows a delivered message as failed:
      no success line contains "success" once the SID does not (Twilio
      SIDs are hex digits after a two-letter prefix, with no 'u'). */
  lemma DeliveredShownAsFailed(c: Channel, sid: string)
    requires HasNoU(sid)
    ensures !ShownAsDelivered(Status(c, Delivered(sid)))
    ensures IsDelivered(Status(c, Delivered(sid)))
  {
    var s := Status(c, Delivered(sid));
    FixedTextsHaveNoU(c);
    assert s == (Check + SentText(c)) + sid + ")";
    assert HasNoU(s);
    LowerHasNoU(s);
    assert 'u' in "success";
    MissingCharNotContained(Lower(s), "success", 'u');
  }

  /** ... and a failure whose error text mentions success is shown as
      delivered. */
  lemma FailureShownAsDelivered(c: Channel)
    ensures ShownAsDelivered(Status(c, Failed("success")))
    ensures !IsDelivered(Status(c, Failed("success")))
  {
    var pre := Cross + FailedText(c);
    assert Status(c, Failed("success")) == pre + "success";
    LowerConcat(pre, "success");
    assert Lower("success") == "success";
    assert Lower(pre + "success") == Lower(pre) + "success" + "";
    ContainsMiddle(Lower(pre), "success", "");
    IsDeliveredExact(c, Failed("success"));
  }
}
