/** `Coordinator.run_pipeline` as a pure function. Everything the run
    consults outside itself (the decoded image's fingerprint, the three AI
    agents, the two parsers, the similarity of two embeddings, the
    messaging providers, the clock) is an oracle in `World`; everything it
    does to the outside (agent calls, the insert, the notifications) is
    returned as an effect trace next to the grown store and the response. */
module Pipeline {
  import opened Common
  import opened Text
  import opened Values
  import opened Fingerprint
  import opened Dispatch
  import opened ReplyParsing
  import opened Store

  /** What an agent's `step` produced: the reply text, or the exception. */
  datatype Reply = Answered(text: string) | Raised(error: string)

  datatype World = World(
    /** the decoded image's `str(imagehash.phash(img))`, or the decode error */
    image: Result<string, string>,
    embedReply: Reply,
    matcherReply: Reply,
    /** the privacy agent's reply for the candidate at each position */
    privacyReply: nat -> Reply,
    strict: Parser,
    literal: Parser,
    /** `cosine_similarity` of two embeddings; `None` where it raises */
    cosine: (Value, Value) -> Option<real>,
    /** the provider outcome of the k-th notification on each channel */
    provider: (nat, Channel) -> ProviderOutcome,
    /** `datetime.utcnow().isoformat()` at insert time */
    now: string)

  /** The arguments of `run_pipeline` besides the image. */
  datatype Report = Report(title: string, description: string, kind: string, contact: string)

  /** The exceptions a run can meet; each ends it with an error response. */
  datatype Failure =
    | ImageDecodeFailed(detail: string)
    | AgentFailed(detail: string)
    | EmbeddingNotSerializable
    | MalformedFingerprint(phash: string)
    | SimilarityFailed
    | CandidatesNotSliceable
    | CandidateNotMapping

  datatype Effect =
    | AskEmbed
    | Persist(record: Record)
    | Notify(to: Value, body: string, status: map<Channel, string>)
    | AskMatcher
    | AskPrivacy(contact: Value)

  /** One entry of the returned `matches` list. */
  datatype CandidateResult = CandidateResult(candidate: Value, masked: string, notifStatus: map<Channel, string>)

  /** `{"item_id": ..., "matches": [...]}` or `{"error": ...}`. */
  datatype Response = Matched(itemId: nat, matches: seq<CandidateResult>) | PipelineError(failure: Failure)

  datatype Run = Run(store: seq<Record>, trace: seq<Effect>, response: Response)

  // ---------------------------------------------------------------------
  // Messages

  const AckOpening := "Sorry to hear that \U{1F614}, your item '"
  const AckClosing := "' has been safely recorded. I will notify you immediately if a match is found! \U{1F4E6}"
  const FoundOpening := "\U{1F389} Good news! Your lost item '"
  const FoundClosing := "' might have been found by someone. Contact info of finder: "
  const CandidateOpening := "Possible match for "
  const CandidateClosing := ". Contact of reporter: "

  function AckBody(title: string): string
  {
    AckOpening + title + AckClosing
  }

  function FoundBody(lostTitle: string, finder: string): string
  {
    FoundOpening + lostTitle + FoundClosing + finder
  }

  function CandidateBody(title: string, reporter: string): string
  {
    CandidateOpening + title + CandidateClosing + reporter
  }

  /** The k-th `send_notification` of a run, always on all three channels. */
  function Send(world: World, k: nat, to: Value, body: string): (e: Effect)
    ensures e.Notify? && e.to == to && e.body == body
    ensures e.status.Keys == {Sms, WhatsApp, Call}
    ensures forall c :: c in e.status ==> e.status[c] == Status(c, world.provider(k, c))
  {
    Notify(to, body, SendNotification(AllChannels, c => world.provider(k, c)))
  }

  // ---------------------------------------------------------------------
  // Full scan of lost records

  const LostKind := "lost"
  const FoundKind := "found"

  predicate IsLostKind(kind: string) { Lower(kind) == LostKind }

  predicate IsFoundKind(kind: string) { Lower(kind) == FoundKind }

  /** `[item for item in fetch_all_items() if item['type'].lower() == 'lost']`. */
  function LostRecords(store: seq<Record>): (r: seq<Record>)
    ensures |r| <= |store|
  {
    if |store| == 0 then []
    else (if IsLostKind(store[0].kind) then [store[0]] else []) + LostRecords(store[1..])
  }

  /** The scan sees exactly the stored records whose kind is lost in any
      capitalisation. */
  lemma {:induction false} LostRecordsMembers(store: seq<Record>)
    ensures forall x :: x in LostRecords(store) <==> x in store && IsLostKind(x.kind)
    decreases |store|
  {
    if |store| > 0 {
      LostRecordsMembers(store[1..]);
      assert forall x :: x in store <==> x == store[0] || x in store[1..];
    }
  }

  /** The loop over lost records: fingerprint distance, then similarity,
      then a notification to the record's owner when the rule holds. The
      first exception ends the scan; `k` numbers the notifications. */
  function Scan(world: World, phash: string, emb: Value, lost: seq<Record>, finder: string, k: nat)
    : (r: (seq<Effect>, Option<Failure>))
    ensures forall e :: e in r.0 ==> e.Notify?
    ensures |r.0| <= |lost|
    decreases |lost|
  {
    if |lost| == 0 then ([], None)
    else
      var rec := lost[0];
      match Hamming(phash, rec.phash)
      case None => ([], Some(MalformedFingerprint(rec.phash)))
      case Some(d) =>
        match world.cosine(emb, rec.embedding)
        case None => ([], Some(SimilarityFailed))
        case Some(sim) =>
          if IsMatch(d, sim) then
            var rest := Scan(world, phash, emb, lost[1..], finder, k + 1);
            ([Send(world, k, VStr(rec.contact), FoundBody(rec.title, finder))] + rest.0, rest.1)
          else Scan(world, phash, emb, lost[1..], finder, k)
  }

  // ---------------------------------------------------------------------
  // Ranked candidates

  /** `matches[:3]` followed by iteration: a list or tuple yields its first
      three items, a string its first three characters, anything else
      raises. */
  function TopThree(v: Value): (r: Option<seq<Value>>)
    ensures r.Some? ==> |r.value| <= 3
    ensures v.VList? ==> r == Some(v.items[..Min(3, |v.items|)])
    ensures v.VStr? ==> r.Some? && |r.value| == Min(3, |v.s|)
                        && forall i :: 0 <= i < |r.value| ==> r.value[i] == VStr([v.s[i]])
    ensures (v.VStr? || v.VList?) <==> r.Some?
  {
    match v
    case VList(items) => Some(items[..Min(3, |items|)])
    case VStr(s) => Some(seq(Min(3, |s|), i requires 0 <= i < Min(3, |s|) => VStr([s[i]])))
    case _ => None
  }

  const OwnerKey := "owner_contact"

  /** `m.get("owner_contact")`: the contact a candidate names, if any. */
  function Owner(cand: Value): Value
    requires cand.VDict?
  {
    Lookup(cand.entries, OwnerKey, VNone)
  }

  /** What the run promises about the entry it returns for the candidate
      at position `pos`: the candidate itself, the stripped privacy
      reply, and a notification status that is empty exactly when the
      candidate's contact is falsy (all three channels otherwise). */
  predicate Describes(world: World, pos: nat, cand: Value, res: CandidateResult)
  {
    && res.candidate == cand
    && cand.VDict?
    && world.privacyReply(pos).Answered?
    && res.masked == Strip(world.privacyReply(pos).text)
    && (res.notifStatus == map[] <==> !Truthy(Owner(cand)))
    && (Truthy(Owner(cand)) ==> res.notifStatus.Keys == {Sms, WhatsApp, Call})
  }

  /** One iteration for a candidate whose privacy reply was `text`:
      the notification, if its contact is truthy, and its result entry.
      The notification goes to the candidate's own contact, names the new
      report's title and the reporter's contact, and the entry records
      exactly the per-channel outcome of that notification. */
  function HandleCandidate(world: World, cand: Value, pos: nat, text: string,
                           title: string, reporter: string, k: nat)
    : (r: (seq<Effect>, CandidateResult))
    requires cand.VDict? && world.privacyReply(pos) == Answered(text)
    ensures Describes(world, pos, cand, r.1)
    ensures Truthy(Owner(cand)) ==> r.0 == [Notify(Owner(cand), CandidateBody(title, reporter), r.1.notifStatus)]
    ensures !Truthy(Owner(cand)) ==> r.0 == []
    ensures forall c :: c in r.1.notifStatus ==> r.1.notifStatus[c] == Status(c, world.provider(k, c))
  {
    var owner := Owner(cand);
    if Truthy(owner) then
      var sent := Send(world, k, owner, CandidateBody(title, reporter));
      assert Sms in sent.status;
      ([sent], CandidateResult(cand, Strip(text), sent.status))
    else
      ([], CandidateResult(cand, Strip(text), map[]))
  }

  /** The loop over the top candidates, from position `pos`: anonymise the
      contact, notify the real contact when it is truthy, collect the
      result entry. `k` numbers the notifications. */
  function NotifyCandidates(world: World, cands: seq<Value>, pos: nat, title: string, reporter: string, k: nat)
    : (r: (seq<Effect>, seq<CandidateResult>, Option<Failure>))
    ensures |r.1| <= |cands|
    ensures r.2.None? ==> |r.1| == |cands|
    ensures forall i :: 0 <= i < |r.1| ==> Describes(world, pos + i, cands[i], r.1[i])
    ensures forall e :: e in r.0 ==> RankingEffect(e)
    decreases |cands|
  {
    if |cands| == 0 then ([], [], None)
    else if !cands[0].VDict? then ([], [], Some(CandidateNotMapping))
    else
      var ask := AskPrivacy(Lookup(cands[0].entries, OwnerKey, VStr("")));
      match world.privacyReply(pos)
      case Raised(e) => ([ask], [], Some(AgentFailed(e)))
      case Answered(text) =>
        var head := HandleCandidate(world, cands[0], pos, text, title, reporter, k);
        var next := if Truthy(Owner(cands[0])) then k + 1 else k;
        var rest := NotifyCandidates(world, cands[1..], pos + 1, title, reporter, next);
        ShiftDescribes(world, pos, cands, head.1, rest.1);
        RankingEffectsJoin(ask, head.0, rest.0);
        ([ask] + head.0 + rest.0, [head.1] + rest.1, rest.2)
  }

  predicate RankingEffect(e: Effect) { e.AskPrivacy? || e.Notify? }

  lemma RankingEffectsJoin(ask: Effect, head: seq<Effect>, rest: seq<Effect>)
    requires ask.AskPrivacy?
    requires forall e :: e in head ==> e.Notify?
    requires forall e :: e in rest ==> RankingEffect(e)
    ensures forall e :: e in [ask] + head + rest ==> RankingEffect(e)
  {
  }

  lemma ShiftDescribes(world: World, pos: nat, cands: seq<Value>, head: CandidateResult, rest: seq<CandidateResult>)
    requires |cands| > 0 && |rest| <= |cands| - 1
    requires Describes(world, pos, cands[0], head)
    requires forall i :: 0 <= i < |rest| ==> Describes(world, pos + 1 + i, cands[1..][i], rest[i])
    ensures forall i :: 0 <= i < 1 + |rest| ==> Describes(world, pos + i, cands[i], ([head] + rest)[i])
  {
    forall i | 0 <= i < 1 + |rest|
      ensures Describes(world, pos + i, cands[i], ([head] + rest)[i])
    {
      if i > 0 {
        assert Describes(world, pos + 1 + (i - 1), cands[1..][i - 1], rest[i - 1]);
      }
    }
  }

  // ---------------------------------------------------------------------
  // The run

  /** The notifications between the insert and the ranking request: the
      acknowledgment of a lost report with a contact, or the full scan
      for a found report. */
  function Alerts(report: Report, stored: seq<Record>, phash: string, emb: Value, world: World)
    : (r: (seq<Effect>, Option<Failure>))
    ensures forall e :: e in r.0 ==> e.Notify?
  {
    if report.contact != "" && IsLostKind(report.kind) then
      ([Send(world, 0, VStr(report.contact), AckBody(report.title))], None)
    else if IsFoundKind(report.kind) then
      Scan(world, phash, emb, LostRecords(stored), report.contact, 0)
    else ([], None)
  }

  /** The ranking stage: ask the matcher agent, parse its reply, notify
      and collect the top three candidates. `k` numbers the
      notifications. */
  function Ranking(report: Report, id: nat, world: World, k: nat): (r: (seq<Effect>, Response))
    ensures |r.0| >= 1 && r.0[0] == AskMatcher
    ensures forall e :: e in r.0[1..] ==> e.Notify? || e.AskPrivacy?
    ensures r.1.Matched? ==> r.1.itemId == id
  {
    match world.matcherReply
    case Raised(e) => ([AskMatcher], PipelineError(AgentFailed(e)))
    case Answered(text) =>
      match TopThree(SafeParse(text, world.strict, world.literal))
      case None => ([AskMatcher], PipelineError(CandidatesNotSliceable))
      case Some(top) =>
        var c := NotifyCandidates(world, top, 0, report.title, report.contact, k);
        assert ([AskMatcher] + c.0)[1..] == c.0;
        ([AskMatcher] + c.0, if c.2.Some? then PipelineError(c.2.value) else Matched(id, c.1))
  }

  /** `run_pipeline(image, title, description, kind, contact)` against a
      store, under the oracles of `world`. The run never alters or removes
      a stored record and adds at most one, the record of the report,
      under an id no stored record has. */
  function RunPipeline(report: Report, store: seq<Record>, world: World): (r: Run)
    ensures |store| <= |r.store| <= |store| + 1 && r.store[..|store|] == store
    ensures |r.store| > |store| ==>
              var rec := r.store[|store|];
              && rec.kind == report.kind && rec.title == report.title
              && rec.description == report.description && rec.contact == report.contact
              && forall i :: 0 <= i < |store| ==> store[i].id != rec.id
  {
    match world.image
    case Err(e) => Run(store, [], PipelineError(ImageDecodeFailed(e)))
    case Ok(phash) =>
      match world.embedReply
      case Raised(e) => Run(store, [AskEmbed], PipelineError(AgentFailed(e)))
      case Answered(text) =>
        var emb := SafeParse(text, world.strict, world.literal);
        if !Serializable(emb) then Run(store, [AskEmbed], PipelineError(EmbeddingNotSerializable))
        else
          var draft := Draft(report.kind, report.title, report.description, report.contact, phash, emb);
          var ins := Insert(store, draft, world.now);
          var prefix := [AskEmbed, Persist(ins.0[|store|])];
          var alerts := Alerts(report, ins.0, phash, emb, world);
          if alerts.1.Some? then Run(ins.0, prefix + alerts.0, PipelineError(alerts.1.value))
          else
            var ranking := Ranking(report, ins.1, world, |alerts.0|);
            Run(ins.0, prefix + (alerts.0 + ranking.0), ranking.1)
  }
}
