/** What a run of the pipeline promises, stated on its effect trace. */
module PipelineProperties {
  import opened Common
  import opened Text
  import opened Values
  import opened Fingerprint
  import opened Dispatch
  import opened ReplyParsing
  import opened Store
  import opened Pipeline

  // ---------------------------------------------------------------------
  // Reading a trace

  /** Recipient and body of every notification, in order. */
  function Notices(t: seq<Effect>): seq<(Value, string)>
  {
    if |t| == 0 then []
    else (if t[0].Notify? then [(t[0].to, t[0].body)] else []) + Notices(t[1..])
  }

  /** Contact named in every privacy request, in order. */
  function PrivacyAsks(t: seq<Effect>): seq<Value>
  {
    if |t| == 0 then []
    else (if t[0].AskPrivacy? then [t[0].contact] else []) + PrivacyAsks(t[1..])
  }

  /** Per-channel status map of every notification, in order. */
  function SentStatuses(t: seq<Effect>): seq<map<Channel, string>>
  {
    if |t| == 0 then []
    else (if t[0].Notify? then [t[0].status] else []) + SentStatuses(t[1..])
  }

  /** The effects after the first request to the matcher agent. */
  function AfterRanking(t: seq<Effect>): seq<Effect>
  {
    if |t| == 0 then [] else if t[0] == AskMatcher then t[1..] else AfterRanking(t[1..])
  }

  /** The effects before the matcher agent is asked for candidates. */
  function BeforeRanking(t: seq<Effect>): seq<Effect>
  {
    if |t| == 0 || t[0] == AskMatcher then [] else [t[0]] + BeforeRanking(t[1..])
  }

  function PersistCount(t: seq<Effect>): nat
  {
    if |t| == 0 then 0 else (if t[0].Persist? then 1 else 0) + PersistCount(t[1..])
  }

  /** The trace opens with the embedding request and the insert. */
  predicate Persisted(t: seq<Effect>)
  {
    |t| >= 2 && t[0] == AskEmbed && t[1].Persist?
  }

  lemma {:induction false} NoticesConcat(a: seq<Effect>, b: seq<Effect>)
    ensures Notices(a + b) == Notices(a) + Notices(b)
    decreases |a|
  {
    if |a| == 0 {
      assert a + b == b;
    } else {
      assert (a + b)[0] == a[0];
      assert (a + b)[1..] == a[1..] + b;
      NoticesConcat(a[1..], b);
    }
  }

  lemma {:induction false} PrivacyAsksConcat(a: seq<Effect>, b: seq<Effect>)
    ensures PrivacyAsks(a + b) == PrivacyAsks(a) + PrivacyAsks(b)
    decreases |a|
  {
    if |a| == 0 {
      assert a + b == b;
    } else {
      assert (a + b)[0] == a[0];
      assert (a + b)[1..] == a[1..] + b;
      PrivacyAsksConcat(a[1..], b);
    }
  }

  lemma {:induction false} SentStatusesConcat(a: seq<Effect>, b: seq<Effect>)
    ensures SentStatuses(a + b) == SentStatuses(a) + SentStatuses(b)
    decreases |a|
  {
    if |a| == 0 {
      assert a + b == b;
    } else {
      assert (a + b)[0] == a[0];
      assert (a + b)[1..] == a[1..] + b;
      SentStatusesConcat(a[1..], b);
    }
  }

  lemma {:induction false} AfterRankingSkips(a: seq<Effect>, b: seq<Effect>)
    requires AskMatcher !in a
    ensures AfterRanking(a + [AskMatcher] + b) == b
    decreases |a|
  {
    if |a| == 0 {
      assert a + [AskMatcher] + b == [AskMatcher] + b;
    } else {
      assert a[0] in a;
      assert (a + [AskMatcher] + b)[1..] == a[1..] + [AskMatcher] + b;
      AfterRankingSkips(a[1..], b);
    }
  }

  lemma {:induction false} NoNotifyNoNotices(t: seq<Effect>)
    requires forall e :: e in t ==> !e.Notify?
    ensures Notices(t) == []
    decreases |t|
  {
    if |t| > 0 {
      assert t[0] in t;
      NoNotifyNoNotices(t[1..]);
    }
  }

  lemma {:induction false} NoPersistCountsZero(t: seq<Effect>)
    requires forall e :: e in t ==> !e.Persist?
    ensures PersistCount(t) == 0
    decreases |t|
  {
    if |t| > 0 {
      assert t[0] in t;
      NoPersistCountsZero(t[1..]);
    }
  }

  lemma {:induction false} PersistCountConcat(a: seq<Effect>, b: seq<Effect>)
    ensures PersistCount(a + b) == PersistCount(a) + PersistCount(b)
    decreases |a|
  {
    if |a| == 0 {
      assert a + b == b;
    } else {
      assert (a + b)[0] == a[0];
      assert (a + b)[1..] == a[1..] + b;
      PersistCountConcat(a[1..], b);
    }
  }

  lemma {:induction false} BeforeRankingStopsAtMatcher(a: seq<Effect>, b: seq<Effect>)
    requires AskMatcher !in a
    ensures BeforeRanking(a + [AskMatcher] + b) == a
    ensures BeforeRanking(a) == a
    decreases |a|
  {
    if |a| == 0 {
      assert (a + [AskMatcher] + b)[0] == AskMatcher;
    } else {
      assert a[0] in a;
      assert (a + [AskMatcher] + b)[1..] == a[1..] + [AskMatcher] + b;
      BeforeRankingStopsAtMatcher(a[1..], b);
    }
  }

  // ---------------------------------------------------------------------
  // Reference definition of the full scan

  /** Both signals can be computed for the record without an exception. */
  predicate Scannable(world: World, phash: string, emb: Value, rec: Record)
  {
    Hamming(phash, rec.phash).Some? && world.cosine(emb, rec.embedding).Some?
  }

  /** The record satisfies the match rule against the new report. */
  predicate Qualifies(world: World, phash: string, emb: Value, rec: Record)
  {
    && Scannable(world, phash, emb, rec)
    && IsMatch(Hamming(phash, rec.phash).value, world.cosine(emb, rec.embedding).value)
  }

  /** One notification per qualifying lost record, to that record's
      contact (empty or not), in store order. */
  function ScanNotices(world: World, phash: string, emb: Value, lost: seq<Record>, finder: string)
    : seq<(Value, string)>
  {
    if |lost| == 0 then []
    else
      (if Qualifies(world, phash, emb, lost[0])
       then [(VStr(lost[0].contact), FoundBody(lost[0].title, finder))] else [])
      + ScanNotices(world, phash, emb, lost[1..], finder)
  }

  /** One step of the scan, in terms of the reference predicates. */
  lemma ScanStep(world: World, phash: string, emb: Value, lost: seq<Record>, finder: string, k: nat)
    requires |lost| > 0
    ensures var r := Scan(world, phash, emb, lost, finder, k);
            var rec := lost[0];
            && (!Scannable(world, phash, emb, rec) ==> r.0 == [] && r.1.Some?)
            && (Scannable(world, phash, emb, rec) && !Qualifies(world, phash, emb, rec) ==>
                  r == Scan(world, phash, emb, lost[1..], finder, k))
            && (Qualifies(world, phash, emb, rec) ==>
                  var rest := Scan(world, phash, emb, lost[1..], finder, k + 1);
                  r == ([Send(world, k, VStr(rec.contact), FoundBody(rec.title, finder))] + rest.0, rest.1))
  {
  }

  /** The scan completes exactly when every lost record can be scored. */
  lemma {:induction false} ScanCompletes(world: World, phash: string, emb: Value,
                                         lost: seq<Record>, finder: string, k: nat)
    ensures Scan(world, phash, emb, lost, finder, k).1.None?
            <==> forall rec :: rec in lost ==> Scannable(world, phash, emb, rec)
    decreases |lost|
  {
    if |lost| > 0 {
      var rec := lost[0];
      ScanStep(world, phash, emb, lost, finder, k);
      assert forall x :: x in lost <==> x == rec || x in lost[1..];
      if Scannable(world, phash, emb, rec) {
        ScanCompletes(world, phash, emb, lost[1..], finder, k);
        ScanCompletes(world, phash, emb, lost[1..], finder, k + 1);
      }
    }
  }

  /** A notification in front of a trace puts its notice in front. */
  lemma PrependNotice(sent: Effect, rest: seq<Effect>, ref: seq<(Value, string)>)
    requires sent.Notify?
    ensures Notices([sent] + rest) == [(sent.to, sent.body)] + Notices(rest)
    ensures Notices(rest) <= ref ==> Notices([sent] + rest) <= [(sent.to, sent.body)] + ref
  {
    assert ([sent] + rest)[1..] == rest;
  }

  /** What the scan sends is a prefix of the reference list, and all of
      it when the scan completes. */
  lemma {:induction false} ScanSendsReference(world: World, phash: string, emb: Value,
                                              lost: seq<Record>, finder: string, k: nat)
    ensures var r := Scan(world, phash, emb, lost, finder, k);
            && (r.1.None? ==> Notices(r.0) == ScanNotices(world, phash, emb, lost, finder))
            && Notices(r.0) <= ScanNotices(world, phash, emb, lost, finder)
    decreases |lost|
  {
    if |lost| > 0 {
      var rec := lost[0];
      ScanStep(world, phash, emb, lost, finder, k);
      if !Scannable(world, phash, emb, rec) {
        assert Notices([]) == [];
      } else if !Qualifies(world, phash, emb, rec) {
        ScanSendsReference(world, phash, emb, lost[1..], finder, k);
      } else {
        ScanSendsReference(world, phash, emb, lost[1..], finder, k + 1);
        var rest := Scan(world, phash, emb, lost[1..], finder, k + 1);
        var sent := Send(world, k, VStr(rec.contact), FoundBody(rec.title, finder));
        PrependNotice(sent, rest.0, ScanNotices(world, phash, emb, lost[1..], finder));
      }
    }
  }

  /** The scan completes exactly when every lost record can be scored,
      then notifies exactly the qualifying records; when it stops early,
      what it sent is a prefix of that list. */
  lemma ScanMeetsReference(world: World, phash: string, emb: Value,
                           lost: seq<Record>, finder: string, k: nat)
    ensures var r := Scan(world, phash, emb, lost, finder, k);
            && (r.1.None? <==> forall rec :: rec in lost ==> Scannable(world, phash, emb, rec))
            && (r.1.None? ==> Notices(r.0) == ScanNotices(world, phash, emb, lost, finder))
            && Notices(r.0) <= ScanNotices(world, phash, emb, lost, finder)
  {
    ScanCompletes(world, phash, emb, lost, finder, k);
    ScanSendsReference(world, phash, emb, lost, finder, k);
  }

  // ---------------------------------------------------------------------
  // Insert and ordering

  /** The embedding the run computes from the embed agent's reply. */
  function Embedding(world: World): Value
    requires world.embedReply.Answered?
  {
    SafeParse(world.embedReply.text, world.strict, world.literal)
  }

  /** The run gets as far as the insert. */
  predicate ReachesInsert(world: World)
  {
    world.image.Ok? && world.embedReply.Answered? && Serializable(Embedding(world))
  }

  function DraftOf(report: Report, world: World): Draft
    requires ReachesInsert(world)
  {
    Draft(report.kind, report.title, report.description, report.contact, world.image.value, Embedding(world))
  }

  /** A run that fails before the insert leaves the store alone and
      notifies nobody. */
  lemma StopsBeforeInsert(report: Report, store: seq<Record>, world: World)
    requires !ReachesInsert(world)
    ensures var r := RunPipeline(report, store, world);
            && r.store == store
            && (r.trace == [] || r.trace == [AskEmbed])
            && r.response.PipelineError?
            && (world.image.Err? ==> r.trace == [])
  {
  }

  /** A run that reaches the insert, split into its stages. */
  lemma Stages(report: Report, store: seq<Record>, world: World)
    requires ReachesInsert(world)
    ensures var r := RunPipeline(report, store, world);
            var ins := Insert(store, DraftOf(report, world), world.now);
            var alerts := Alerts(report, ins.0, world.image.value, Embedding(world), world);
            && r.store == ins.0
            && (alerts.1.Some? ==>
                  && r.trace == [AskEmbed, Persist(ins.0[|store|])] + alerts.0
                  && r.response == PipelineError(alerts.1.value))
            && (alerts.1.None? ==>
                  var ranking := Ranking(report, ins.1, world, |alerts.0|);
                  && r.trace == [AskEmbed, Persist(ins.0[|store|])] + (alerts.0 + ranking.0)
                  && r.response == ranking.1)
  {
  }

  lemma DropTwo(a: Effect, b: Effect, rest: seq<Effect>)
    ensures ([a, b] + rest)[2..] == rest && ([a, b] + rest)[..2] == [a, b]
  {
  }

  /** Effects that may follow the insert. */
  predicate AfterInsert(e: Effect)
  {
    e.Notify? || e == AskMatcher || e.AskPrivacy?
  }

  /** The effects after the insert are notifications and agent requests
      only. */
  lemma TailEffects(alerts: seq<Effect>, ranking: seq<Effect>)
    requires forall e :: e in alerts ==> e.Notify?
    requires |ranking| >= 1 && ranking[0] == AskMatcher
    requires forall e :: e in ranking[1..] ==> e.Notify? || e.AskPrivacy?
    ensures forall e :: e in alerts + ranking ==> AfterInsert(e)
  {
    assert ranking == [ranking[0]] + ranking[1..];
  }

  /** The trace of a run that reaches the insert: the embedding request,
      the insert, then notifications and agent requests only. */
  lemma PersistedTrace(report: Report, store: seq<Record>, world: World)
    requires ReachesInsert(world)
    ensures var r := RunPipeline(report, store, world);
            var ins := Insert(store, DraftOf(report, world), world.now);
            && r.store == ins.0
            && |r.trace| >= 2 && r.trace[..2] == [AskEmbed, Persist(ins.0[|store|])]
            && (forall e :: e in r.trace[2..] ==> AfterInsert(e))
            && (r.response.Matched? ==> r.response.itemId == ins.1)
  {
    Stages(report, store, world);
    var ins := Insert(store, DraftOf(report, world), world.now);
    var alerts := Alerts(report, ins.0, world.image.value, Embedding(world), world);
    if alerts.1.None? {
      var ranking := Ranking(report, ins.1, world, |alerts.0|);
      TailEffects(alerts.0, ranking.0);
      DropTwo(AskEmbed, Persist(ins.0[|store|]), alerts.0 + ranking.0);
    } else {
      DropTwo(AskEmbed, Persist(ins.0[|store|]), alerts.0);
    }
  }

  lemma OnePersist(t: seq<Effect>)
    requires Persisted(t)
    requires forall e :: e in t[2..] ==> AfterInsert(e)
    ensures PersistCount(t) == 1
  {
    NoPersistCountsZero(t[2..]);
    assert t == t[..2] + t[2..];
    PersistCountConcat(t[..2], t[2..]);
    assert t[..2] == [t[0], t[1]];
  }

  /** Exactly the runs that get past decoding, embedding and
      serialisation insert, and they insert one record: the one at the
      end of the grown store. A failure after the insert leaves it
      stored; a failure before it stores and notifies nothing. */
  lemma SingleInsert(report: Report, store: seq<Record>, world: World)
    ensures var r := RunPipeline(report, store, world);
            && (Persisted(r.trace) <==> ReachesInsert(world))
            && (Persisted(r.trace) ==> r.store == store + [r.trace[1].record] && PersistCount(r.trace) == 1)
            && (!Persisted(r.trace) ==> r.store == store && PersistCount(r.trace) == 0 && Notices(r.trace) == [])
  {
    var r := RunPipeline(report, store, world);
    if ReachesInsert(world) {
      PersistedTrace(report, store, world);
      var ins := Insert(store, DraftOf(report, world), world.now);
      assert r.trace[0] == r.trace[..2][0] && r.trace[1] == r.trace[..2][1];
      OnePersist(r.trace);
      assert ins.0 == store + [ins.0[|store|]];
    } else {
      StopsBeforeInsert(report, store, world);
      NoNotifyNoNotices(r.trace);
    }
  }

  /** Every notification comes after the insert. */
  lemma InsertPrecedesNotifications(report: Report, store: seq<Record>, world: World)
    ensures var r := RunPipeline(report, store, world);
            forall i :: 0 <= i < |r.trace| && r.trace[i].Notify? ==> Persisted(r.trace) && 2 <= i
  {
    SingleInsert(report, store, world);
    var r := RunPipeline(report, store, world);
    if Persisted(r.trace) {
      NotifyAfterOpening(r.trace);
    } else {
      NoNotifyWithoutNotices(r.trace);
    }
  }

  lemma NotifyAfterOpening(t: seq<Effect>)
    requires Persisted(t)
    ensures forall i :: 0 <= i < |t| && t[i].Notify? ==> 2 <= i
  {
  }

  lemma {:induction false} NoNotifyWithoutNotices(t: seq<Effect>)
    requires Notices(t) == []
    ensures forall i :: 0 <= i < |t| ==> !t[i].Notify?
    decreases |t|
  {
    if |t| > 0 {
      if t[0].Notify? {
        assert false;
      }
      assert Notices(t) == Notices(t[1..]);
      NoNotifyWithoutNotices(t[1..]);
      assert forall i :: 1 <= i < |t| ==> t[i] == t[1..][i - 1];
    }
  }

  /** A successful run returns the id of the record it stored, and that
      id is new to the store. */
  lemma MatchedReturnsStoredId(report: Report, store: seq<Record>, world: World)
    ensures var r := RunPipeline(report, store, world);
            r.response.Matched? ==>
              && Persisted(r.trace)
              && r.trace[1].record.id == r.response.itemId
              && forall i :: 0 <= i < |store| ==> store[i].id != r.response.itemId
  {
    var r := RunPipeline(report, store, world);
    if ReachesInsert(world) {
      PersistedTrace(report, store, world);
      assert r.trace[1] == r.trace[..2][1];
    } else {
      StopsBeforeInsert(report, store, world);
    }
  }

  // ---------------------------------------------------------------------
  // Notifications before the ranking request

  /** The notifications a run sends between the insert and the ranking
      request, by the reference definitions: one acknowledgment to the
      reporter of a lost item who left a contact; for a found item, one
      notification per qualifying lost record of `lostIn`; nothing
      otherwise. */
  function ExpectedAlerts(report: Report, lostIn: seq<Record>, phash: string, emb: Value, world: World)
    : seq<(Value, string)>
  {
    if report.contact != "" && IsLostKind(report.kind) then [(VStr(report.contact), AckBody(report.title))]
    else if IsFoundKind(report.kind) then ScanNotices(world, phash, emb, LostRecords(lostIn), report.contact)
    else []
  }

  /** Whether the alert stage can run to completion. */
  predicate AlertsComplete(report: Report, lostIn: seq<Record>, phash: string, emb: Value, world: World)
  {
    (report.contact != "" && IsLostKind(report.kind)) || !IsFoundKind(report.kind)
    || forall rec :: rec in LostRecords(lostIn) ==> Scannable(world, phash, emb, rec)
  }

  lemma {:induction false} LostRecordsAppend(store: seq<Record>, x: Record)
    ensures LostRecords(store + [x]) == LostRecords(store) + (if IsLostKind(x.kind) then [x] else [])
    decreases |store|
  {
    var t := if IsLostKind(x.kind) then [x] else [];
    if |store| == 0 {
      assert store + [x] == [x];
      assert [x][1..] == [];
    } else {
      var s := store + [x];
      var h := if IsLostKind(store[0].kind) then [store[0]] else [];
      assert s[0] == store[0] && s[1..] == store[1..] + [x];
      LostRecordsAppend(store[1..], x);
      assert LostRecords(s) == h + (LostRecords(store[1..]) + t);
      assert h + (LostRecords(store[1..]) + t) == (h + LostRecords(store[1..])) + t;
    }
  }

  lemma AlertStage(report: Report, stored: seq<Record>, phash: string, emb: Value, world: World)
    ensures var a := Alerts(report, stored, phash, emb, world);
            && Notices(a.0) <= ExpectedAlerts(report, stored, phash, emb, world)
            && (a.1.None? ==> Notices(a.0) == ExpectedAlerts(report, stored, phash, emb, world))
            && (a.1.None? <==> AlertsComplete(report, stored, phash, emb, world))
  {
    var a := Alerts(report, stored, phash, emb, world);
    if report.contact != "" && IsLostKind(report.kind) {
      var sent := Send(world, 0, VStr(report.contact), AckBody(report.title));
      assert a.0 == [sent];
      assert [sent][1..] == [];
    } else if IsFoundKind(report.kind) {
      ScanMeetsReference(world, phash, emb, LostRecords(stored), report.contact, 0);
    }
  }

  /** The insert does not change what the alert stage expects: the new
      record of a found report is not a lost record. */
  lemma InsertKeepsExpectations(report: Report, store: seq<Record>, world: World)
    requires ReachesInsert(world)
    ensures var stored := Insert(store, DraftOf(report, world), world.now).0;
            var phash, emb := world.image.value, Embedding(world);
            && ExpectedAlerts(report, stored, phash, emb, world) == ExpectedAlerts(report, store, phash, emb, world)
            && AlertsComplete(report, stored, phash, emb, world) == AlertsComplete(report, store, phash, emb, world)
  {
    var ins := Insert(store, DraftOf(report, world), world.now);
    var rec := ins.0[|store|];
    assert ins.0 == store + [rec];
    LostRecordsAppend(store, rec);
    if IsFoundKind(report.kind) {
      assert rec.kind == report.kind;
      assert Lower(rec.kind) != "lost";
      assert LostRecords(store) + [] == LostRecords(store);
      assert LostRecords(ins.0) == LostRecords(store);
    }
  }

  /** Reading notices and the ranking request off a trace that reaches
      the insert. */
  lemma TraceAroundAlerts(rec: Record, alerts: seq<Effect>, ranking: seq<Effect>)
    requires forall e :: e in alerts ==> e.Notify?
    requires |ranking| >= 1 && ranking[0] == AskMatcher
    ensures var t := [AskEmbed, Persist(rec)] + (alerts + ranking);
            AskMatcher in t && Notices(BeforeRanking(t)) == Notices(alerts)
    ensures var t := [AskEmbed, Persist(rec)] + alerts;
            AskMatcher !in t && Notices(BeforeRanking(t)) == Notices(alerts)
  {
    var head := [AskEmbed, Persist(rec)] + alerts;
    assert AskMatcher !in head;
    NoticesConcat([AskEmbed, Persist(rec)], alerts);
    assert Notices([AskEmbed, Persist(rec)]) == [];
    assert [AskEmbed, Persist(rec)] + (alerts + ranking) == head + [AskMatcher] + ranking[1..];
    BeforeRankingStopsAtMatcher(head, ranking[1..]);
    BeforeRankingStopsAtMatcher(head, []);
  }

  /** The notifications before the ranking request, by kind of report:
      the acknowledgment of a lost report with a contact, the scan of the
      lost records already stored for a found report (the new record is
      never compared with itself), nothing for any other run. The ranking
      request is made exactly when that stage completes; when it stops
      early, what it sent is a prefix of the expected list. */
  lemma AlertsBeforeRanking(report: Report, store: seq<Record>, world: World)
    requires ReachesInsert(world)
    ensures var r := RunPipeline(report, store, world);
            var expected := ExpectedAlerts(report, store, world.image.value, Embedding(world), world);
            && Notices(BeforeRanking(r.trace)) <= expected
            && (AskMatcher in r.trace <==> AlertsComplete(report, store, world.image.value, Embedding(world), world))
            && (AskMatcher in r.trace ==> Notices(BeforeRanking(r.trace)) == expected)
  {
    var phash, emb := world.image.value, Embedding(world);
    Stages(report, store, world);
    InsertKeepsExpectations(report, store, world);
    var ins := Insert(store, DraftOf(report, world), world.now);
    var alerts := Alerts(report, ins.0, phash, emb, world);
    AlertStage(report, ins.0, phash, emb, world);
    var ranking := Ranking(report, ins.1, world, |alerts.0|);
    TraceAroundAlerts(ins.0[|store|], alerts.0, ranking.0);
  }

  /** A lost report: no scan, so the ranking request always follows, and
      the only notification before it is the acknowledgment, sent exactly
      when the reporter left a contact. */
  lemma LostRunAcknowledgesOnce(report: Report, store: seq<Record>, world: World)
    requires ReachesInsert(world) && IsLostKind(report.kind)
    ensures var r := RunPipeline(report, store, world);
            && AskMatcher in r.trace
            && Notices(BeforeRanking(r.trace))
               == (if report.contact != "" then [(VStr(report.contact), AckBody(report.title))] else [])
  {
    assert !IsFoundKind(report.kind);
    AlertsBeforeRanking(report, store, world);
  }

  /** A found report: no acknowledgment; the scan completes exactly when
      every stored lost record can be scored, and then notifies the owner
      of each qualifying one, in store order. */
  lemma FoundRunScansLostRecords(report: Report, store: seq<Record>, world: World)
    requires ReachesInsert(world) && IsFoundKind(report.kind)
    ensures var r := RunPipeline(report, store, world);
            var phash, emb := world.image.value, Embedding(world);
            && (AskMatcher in r.trace <==> forall rec :: rec in LostRecords(store) ==> Scannable(world, phash, emb, rec))
            && (AskMatcher in r.trace ==>
                  Notices(BeforeRanking(r.trace)) == ScanNotices(world, phash, emb, LostRecords(store), report.contact))
  {
    assert !IsLostKind(report.kind);
    AlertsBeforeRanking(report, store, world);
  }

  /** Every qualifying lost record has its notice in the reference list. */
  lemma {:induction false} QualifyingRecordIsNoticed(world: World, phash: string, emb: Value,
                                                     lost: seq<Record>, finder: string, rec: Record)
    requires rec in lost && Qualifies(world, phash, emb, rec)
    ensures (VStr(rec.contact), FoundBody(rec.title, finder)) in ScanNotices(world, phash, emb, lost, finder)
    decreases |lost|
  {
    if lost[0] != rec {
      assert rec in lost[1..];
      QualifyingRecordIsNoticed(world, phash, emb, lost[1..], finder, rec);
    }
  }

  /** The owner of a stored lost record whose fingerprint is within 19
      bits of the found item's is notified, whatever the embeddings say,
      once the scan completes. */
  lemma CloseFingerprintIsNotified(report: Report, store: seq<Record>, world: World, rec: Record)
    requires ReachesInsert(world) && IsFoundKind(report.kind)
    requires rec in store && IsLostKind(rec.kind)
    requires Hamming(world.image.value, rec.phash).Some? && Hamming(world.image.value, rec.phash).value < 20
    requires world.cosine(Embedding(world), rec.embedding).Some?
    ensures var r := RunPipeline(report, store, world);
            AskMatcher in r.trace ==>
              (VStr(rec.contact), FoundBody(rec.title, report.contact)) in Notices(BeforeRanking(r.trace))
  {
    LostRecordsMembers(store);
    assert rec in LostRecords(store);
    FoundRunScansLostRecords(report, store, world);
    QualifyingRecordIsNoticed(world, world.image.value, Embedding(world), LostRecords(store), report.contact, rec);
  }

  /** A stored lost record with a malformed fingerprint makes a found run
      fail after its insert: the error is returned and the new record
      stays stored. */
  lemma MalformedFingerprintAbortsAfterInsert(report: Report, store: seq<Record>, world: World, rec: Record)
    requires ReachesInsert(world) && IsFoundKind(report.kind)
    requires rec in store && IsLostKind(rec.kind) && !IsHexString(rec.phash)
    ensures var r := RunPipeline(report, store, world);
            && r.response.PipelineError?
            && AskMatcher !in r.trace
            && Persisted(r.trace) && r.store == store + [r.trace[1].record]
  {
    assert !Scannable(world, world.image.value, Embedding(world), rec);
    LostRecordsMembers(store);
    assert rec in LostRecords(store);
    FoundRunScansLostRecords(report, store, world);
    SingleInsert(report, store, world);
    var ins := Insert(store, DraftOf(report, world), world.now);
    var alerts := Alerts(report, ins.0, world.image.value, Embedding(world), world);
    Stages(report, store, world);
    InsertKeepsExpectations(report, store, world);
    AlertStage(report, ins.0, world.image.value, Embedding(world), world);
  }

  // ---------------------------------------------------------------------
  // End-to-end scenarios

  /** With nothing lost in the store, a found report's scan is empty. */
  lemma FoundWithNothingLost(report: Report, stored: seq<Record>, phash: string, emb: Value, world: World)
    requires IsFoundKind(report.kind) && LostRecords(stored) == []
    ensures Alerts(report, stored, phash, emb, world) == ([], None)
  {
    assert !IsLostKind(report.kind);
  }

  /** A matcher reply that parses to a string: its characters are the
      candidates, and `m.get` raises on the first one, so a non-empty
      string ends the stage with an error before any privacy request,
      while the empty string ranks nothing. */
  lemma StringRankingFails(report: Report, id: nat, world: World, k: nat)
    requires world.matcherReply.Answered?
    requires SafeParse(world.matcherReply.text, world.strict, world.literal).VStr?
    ensures var s := SafeParse(world.matcherReply.text, world.strict, world.literal).s;
            var rk := Ranking(report, id, world, k);
            && (|s| > 0 ==> rk == ([AskMatcher], PipelineError(CandidateNotMapping)))
            && (|s| == 0 ==> rk == ([AskMatcher], Matched(id, [])))
  {
    var v := SafeParse(world.matcherReply.text, world.strict, world.literal);
    var top := TopThree(v).value;
    var c := NotifyCandidates(world, top, 0, report.title, report.contact, k);
    if |v.s| > 0 {
      assert !top[0].VDict?;
      assert c == ([], [], Some(CandidateNotMapping));
    } else {
      assert c == ([], [], None);
    }
    assert [AskMatcher] + c.0 == [AskMatcher];
  }

  /** A matcher reply that parses to the empty list ranks nothing. */
  lemma NothingRanked(report: Report, id: nat, world: World, k: nat)
    requires world.matcherReply.Answered?
    requires SafeParse(world.matcherReply.text, world.strict, world.literal) == EmptyList
    ensures Ranking(report, id, world, k) == ([AskMatcher], Matched(id, []))
  {
    var c := NotifyCandidates(world, [], 0, report.title, report.contact, k);
    assert c == ([], [], None);
    assert [AskMatcher] + c.0 == [AskMatcher];
  }

  /** A found report against an empty store, with a matcher reply that
      parses to the empty list: stored under id 1, no notification, no
      candidates. */
  lemma FoundIntoEmptyStore(report: Report, world: World)
    requires ReachesInsert(world) && IsFoundKind(report.kind)
    requires world.matcherReply.Answered?
    requires SafeParse(world.matcherReply.text, world.strict, world.literal) == EmptyList
    ensures var r := RunPipeline(report, [], world);
            && r.response == Matched(1, [])
            && Notices(r.trace) == []
            && |r.store| == 1
  {
    Stages(report, [], world);
    var ins := Insert([], DraftOf(report, world), world.now);
    assert ins.0 == [ins.0[0]] && ins.1 == 1;
    assert !IsLostKind(ins.0[0].kind);
    assert LostRecords(ins.0) == [];
    FoundWithNothingLost(report, ins.0, world.image.value, Embedding(world), world);
    NothingRanked(report, ins.1, world, 0);
    var r := RunPipeline(report, [], world);
    assert r.trace == [AskEmbed, Persist(ins.0[0])] + ([] + [AskMatcher]);
    NoNotifyNoNotices(r.trace);
  }

  /** An embedding reply that no parsing strategy accepts still leads to
      an insert, with the empty list as the stored embedding. */
  lemma GarbageEmbeddingStillPersisted(report: Report, store: seq<Record>, world: World)
    requires world.image.Ok? && world.embedReply.Answered?
    requires forall a :: a in Attempts(world.embedReply.text, world.strict, world.literal) ==> a.None?
    ensures ReachesInsert(world)
    ensures var r := RunPipeline(report, store, world);
            && Persisted(r.trace)
            && r.store == store + [r.trace[1].record]
            && r.trace[1].record.embedding == EmptyList
  {
    AllFailYieldsEmptyList(world.embedReply.text, world.strict, world.literal);
    SingleInsert(report, store, world);
    PersistedTrace(report, store, world);
    var r := RunPipeline(report, store, world);
    assert r.trace[1] == r.trace[..2][1];
  }

  /** Ids stay unique across a run. */
  lemma RunKeepsIdsUnique(report: Report, store: seq<Record>, world: World)
    requires UniqueIds(store)
    ensures UniqueIds(RunPipeline(report, store, world).store)
  {
    if ReachesInsert(world) {
      Stages(report, store, world);
      InsertKeepsIdsUnique(store, DraftOf(report, world), world.now);
    } else {
      StopsBeforeInsert(report, store, world);
    }
  }
}
