/** What the ranking stage of a run promises: who is asked about, who
    is notified and with what text, and which status each returned entry
    records. */
module CandidateProperties {
  import opened Values
  import opened Dispatch
  import opened ReplyParsing
  import opened Store
  import opened Pipeline
  import opened PipelineProperties

  // ---------------------------------------------------------------------
  // Reference definition of the candidate notifications

  /** A candidate the ranking loop notifies: a mapping whose contact is
      truthy. */
  predicate Notifiable(cand: Value)
  {
    cand.VDict? && Truthy(Owner(cand))
  }

  /** One notification per notifiable candidate, to the candidate's own
      contact, naming the new report's title and the reporter's contact,
      in ranking order. */
  function CandidateNotices(cands: seq<Value>, title: string, reporter: string): seq<(Value, string)>
  {
    if |cands| == 0 then []
    else
      (if Notifiable(cands[0]) then [(Owner(cands[0]), CandidateBody(title, reporter))] else [])
      + CandidateNotices(cands[1..], title, reporter)
  }

  /** `m.get('owner_contact', '')` of every mapping candidate, in order:
      the contacts the privacy agent is asked to anonymise. */
  function PrivacyContacts(cands: seq<Value>): seq<Value>
  {
    if |cands| == 0 then []
    else
      (if cands[0].VDict? then [Lookup(cands[0].entries, OwnerKey, VStr(""))] else [])
      + PrivacyContacts(cands[1..])
  }

  /** The non-empty notification statuses of the result entries, in order. */
  function ReportedStatuses(res: seq<CandidateResult>): seq<map<Channel, string>>
  {
    if |res| == 0 then []
    else (if res[0].notifStatus != map[] then [res[0].notifStatus] else []) + ReportedStatuses(res[1..])
  }

  /** The number of the notification after a candidate's. */
  function Next(cand: Value, k: nat): nat
    requires cand.VDict?
  {
    if Truthy(Owner(cand)) then k + 1 else k
  }

  /** One iteration of the candidate loop, for a mapping candidate whose
      privacy request was answered. */
  lemma CandidateStep(world: World, cands: seq<Value>, pos: nat, title: string, reporter: string, k: nat)
    requires |cands| > 0 && cands[0].VDict? && world.privacyReply(pos).Answered?
    ensures var r := NotifyCandidates(world, cands, pos, title, reporter, k);
            var head := HandleCandidate(world, cands[0], pos, world.privacyReply(pos).text, title, reporter, k);
            var rest := NotifyCandidates(world, cands[1..], pos + 1, title, reporter, Next(cands[0], k));
            && r.0 == [AskPrivacy(Lookup(cands[0].entries, OwnerKey, VStr("")))] + head.0 + rest.0
            && r.1 == [head.1] + rest.1
            && r.2 == rest.2
  {
  }

  /** A privacy request followed by notifications, read by the three
      trace readers. */
  lemma AskThenNotify(ask: Effect, head: seq<Effect>, rest: seq<Effect>)
    requires ask.AskPrivacy? && forall e :: e in head ==> e.Notify?
    ensures Notices([ask] + head + rest) == Notices(head) + Notices(rest)
    ensures PrivacyAsks([ask] + head + rest) == [ask.contact] + PrivacyAsks(rest)
    ensures SentStatuses([ask] + head + rest) == SentStatuses(head) + SentStatuses(rest)
  {
    assert [ask] + head + rest == [ask] + (head + rest);
    AskThenNotices(ask, head + rest);
    AskThenAsks(ask, head + rest);
    AskThenStatuses(ask, head + rest);
    NoticesConcat(head, rest);
    PrivacyAsksConcat(head, rest);
    SentStatusesConcat(head, rest);
    NoPrivacyAsks(head);
  }

  lemma AskThenNotices(ask: Effect, t: seq<Effect>)
    requires ask.AskPrivacy?
    ensures Notices([ask] + t) == Notices(t)
  {
    assert ([ask] + t)[1..] == t;
  }

  lemma AskThenAsks(ask: Effect, t: seq<Effect>)
    requires ask.AskPrivacy?
    ensures PrivacyAsks([ask] + t) == [ask.contact] + PrivacyAsks(t)
  {
    assert ([ask] + t)[1..] == t;
  }

  lemma AskThenStatuses(ask: Effect, t: seq<Effect>)
    requires ask.AskPrivacy?
    ensures SentStatuses([ask] + t) == SentStatuses(t)
  {
    assert ([ask] + t)[1..] == t;
  }

  lemma {:induction false} NoPrivacyAsks(t: seq<Effect>)
    requires forall e :: e in t ==> e.Notify?
    ensures PrivacyAsks(t) == []
    decreases |t|
  {
    if |t| > 0 {
      assert t[0] in t;
      NoPrivacyAsks(t[1..]);
    }
  }

  /** What one handled candidate's own effects contribute: its notice and
      its status when its contact is truthy, nothing otherwise. */
  lemma HandledContributes(world: World, cand: Value, pos: nat, text: string,
                           title: string, reporter: string, k: nat)
    requires cand.VDict? && world.privacyReply(pos) == Answered(text)
    ensures var head := HandleCandidate(world, cand, pos, text, title, reporter, k);
            && (forall e :: e in head.0 ==> e.Notify?)
            && Notices(head.0) == (if Notifiable(cand) then [(Owner(cand), CandidateBody(title, reporter))] else [])
            && SentStatuses(head.0) == (if head.1.notifStatus != map[] then [head.1.notifStatus] else [])
  {
    var head := HandleCandidate(world, cand, pos, text, title, reporter, k);
    if Truthy(Owner(cand)) {
      assert head.0[1..] == [];
    }
  }

  lemma PrefixAfter<T>(h: seq<T>, a: seq<T>, b: seq<T>)
    requires a <= b
    ensures h + a <= h + b
  {
    assert (h + b)[..|h + a|] == h + a;
  }

  /** The ranking loop notifies exactly the notifiable candidates and asks
      the privacy agent about exactly the mapping candidates, each with
      its own contact, when it completes; when it stops early, what it did
      is a prefix of that. Every entry records the status of its own
      notification, in order. */
  lemma {:induction false} NotifyCandidatesMeetsReference(world: World, cands: seq<Value>, pos: nat,
                                                          title: string, reporter: string, k: nat)
    ensures var r := NotifyCandidates(world, cands, pos, title, reporter, k);
            && Notices(r.0) <= CandidateNotices(cands, title, reporter)
            && (r.2.None? ==> Notices(r.0) == CandidateNotices(cands, title, reporter))
            && PrivacyAsks(r.0) <= PrivacyContacts(cands)
            && (r.2.None? ==> PrivacyAsks(r.0) == PrivacyContacts(cands))
            && SentStatuses(r.0) == ReportedStatuses(r.1)
    decreases |cands|
  {
    if |cands| > 0 {
      var c := cands[0];
      if c.VDict? {
        var contact := Lookup(c.entries, OwnerKey, VStr(""));
        match world.privacyReply(pos)
        case Raised(e) =>
          assert [AskPrivacy(contact)][1..] == [];
          PrefixAfter([contact], [], PrivacyContacts(cands[1..]));
        case Answered(text) =>
          CandidateStep(world, cands, pos, title, reporter, k);
          var head := HandleCandidate(world, c, pos, text, title, reporter, k);
          var rest := NotifyCandidates(world, cands[1..], pos + 1, title, reporter, Next(c, k));
          NotifyCandidatesMeetsReference(world, cands[1..], pos + 1, title, reporter, Next(c, k));
          HandledContributes(world, c, pos, text, title, reporter, k);
          AskThenNotify(AskPrivacy(contact), head.0, rest.0);
          var h := if Notifiable(c) then [(Owner(c), CandidateBody(title, reporter))] else [];
          PrefixAfter(h, Notices(rest.0), CandidateNotices(cands[1..], title, reporter));
          PrefixAfter([contact], PrivacyAsks(rest.0), PrivacyContacts(cands[1..]));
          assert ([head.1] + rest.1)[1..] == rest.1;
      }
    }
  }

  // ---------------------------------------------------------------------
  // Ranked candidates

  /** The ranking stage: once the matcher has answered with a sliceable
      reply, what follows its request is a prefix of the reference
      notifications and privacy requests for the top three; a success
      returns one describing entry per candidate, did all of it, and its
      entries carry the statuses of the notifications sent, in order. */
  lemma RankingStage(report: Report, id: nat, world: World, k: nat)
    ensures var rk := Ranking(report, id, world, k);
            && (world.matcherReply.Answered? ==>
                  var top := TopThree(SafeParse(world.matcherReply.text, world.strict, world.literal));
                  top.Some? ==>
                    && Notices(rk.0[1..]) <= CandidateNotices(top.value, report.title, report.contact)
                    && PrivacyAsks(rk.0[1..]) <= PrivacyContacts(top.value))
            && (rk.1.Matched? ==>
                  && world.matcherReply.Answered?
                  && var top := TopThree(SafeParse(world.matcherReply.text, world.strict, world.literal));
                  && top.Some?
                  && |rk.1.matches| == |top.value| <= 3
                  && (forall i :: 0 <= i < |rk.1.matches| ==> Describes(world, i, top.value[i], rk.1.matches[i]))
                  && Notices(rk.0[1..]) == CandidateNotices(top.value, report.title, report.contact)
                  && PrivacyAsks(rk.0[1..]) == PrivacyContacts(top.value)
                  && SentStatuses(rk.0[1..]) == ReportedStatuses(rk.1.matches))
  {
    if world.matcherReply.Answered? {
      var top := TopThree(SafeParse(world.matcherReply.text, world.strict, world.literal));
      if top.Some? {
        NotifyCandidatesMeetsReference(world, top.value, 0, report.title, report.contact, k);
      }
    }
  }

  /** A successful run returns one entry per candidate among the first
      three the matcher agent ranked, in the agent's order; each entry
      carries the stripped privacy reply, and its notification status is
      empty exactly when the candidate's contact is falsy. After the
      matcher request, the run asks the privacy agent about each
      candidate's own contact, notifies each candidate with a truthy
      contact about the new report and its reporter's contact, and the
      entries record the statuses of those notifications, in order. */
  lemma TopThreeCandidates(report: Report, store: seq<Record>, world: World)
    ensures var r := RunPipeline(report, store, world);
            r.response.Matched? ==>
              && world.matcherReply.Answered?
              && var top := TopThree(SafeParse(world.matcherReply.text, world.strict, world.literal));
              && top.Some?
              && |r.response.matches| == |top.value| <= 3
              && (forall i :: 0 <= i < |r.response.matches| ==> Describes(world, i, top.value[i], r.response.matches[i]))
              && Notices(AfterRanking(r.trace)) == CandidateNotices(top.value, report.title, report.contact)
              && PrivacyAsks(AfterRanking(r.trace)) == PrivacyContacts(top.value)
              && SentStatuses(AfterRanking(r.trace)) == ReportedStatuses(r.response.matches)
  {
    if ReachesInsert(world) {
      Stages(report, store, world);
      var ins := Insert(store, DraftOf(report, world), world.now);
      var alerts := Alerts(report, ins.0, world.image.value, Embedding(world), world);
      if alerts.1.None? {
        var ranking := Ranking(report, ins.1, world, |alerts.0|);
        RankingStage(report, ins.1, world, |alerts.0|);
        RankingAfterAlerts(ins.0[|store|], alerts.0, ranking.0);
      }
    } else {
      StopsBeforeInsert(report, store, world);
    }
  }

  /** What follows the matcher request in a trace that reaches it. */
  lemma RankingAfterAlerts(rec: Record, alerts: seq<Effect>, ranking: seq<Effect>)
    requires forall e :: e in alerts ==> e.Notify?
    requires |ranking| >= 1 && ranking[0] == AskMatcher
    ensures AfterRanking([AskEmbed, Persist(rec)] + (alerts + ranking)) == ranking[1..]
  {
    var head := [AskEmbed, Persist(rec)] + alerts;
    assert AskMatcher !in head;
    assert [AskEmbed, Persist(rec)] + (alerts + ranking) == head + [AskMatcher] + ranking[1..];
    AfterRankingSkips(head, ranking[1..]);
  }
}
