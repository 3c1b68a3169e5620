/** Building the published pair from the stored case file (outbox/publisher.py). */
module Publisher {
  import opened Wrappers
  import opened CaseStore
  import Denylist
  import Outbox

  datatype Header = Header(
    caseId: string, env: string, clusterId: string, streamId: string, topic: string, anomalyFamily: string,
    criticalityTier: string, finalAction: string, routingKey: string, evaluationTs: int)

  datatype Excerpt = Excerpt(
    caseId: string, env: string, clusterId: string, streamId: string, topic: string, anomalyFamily: string,
    topicRole: string, criticalityTier: string, routingKey: string, sustained: bool, peak: Option<bool>,
    evidence: map<string, string>, findings: seq<string>, triageTimestamp: int)

  /** What the broker client does with one pair: delivers both messages and returns, or raises after having
      delivered any part of it. The two messages are produced separately. */
  datatype Emit = Delivered | RaisedAfter(header: bool, excerpt: bool, exception: string)

  /** What reaches the broker, with the case file it was built from. */
  datatype Publication = Publication(header: Header, excerpt: Excerpt, source: CaseFile)

  /** What reached the broker of one pair. */
  datatype Delivery = Delivery(pub: Publication, header: bool, excerpt: bool)
  {
    predicate Whole() { header && excerpt }
  }

  function Deliver(pub: Publication, emit: Emit): seq<Delivery> {
    match emit
    case Delivered => [Delivery(pub, true, true)]
    case RaisedAfter(header, excerpt, _) => if header || excerpt then [Delivery(pub, header, excerpt)] else []
  }

  /** The error code the worker records: the exception's type, or the broker exception's type when the publish failed
      after sanitising. The exception's type stands for its message as well. */
  function FailureOf(prepared: Result<Publication>, emit: Emit): Outbox.Failure {
    match prepared
    case Err(exception) => Outbox.Failure(Some(exception), exception)
    case Ok(_) =>
      Outbox.Failure(Some(if emit.RaisedAfter? then emit.exception else "InvariantViolation"),
                     "case events publish failed after denylist sanitization")
  }

  /** Everything a publish depends on besides the row and the bucket. `dump` and `load` are the pydantic
      JSON-mode dump of an excerpt and its re-validation. */
  datatype Boundary = Boundary(
    codec: Codec, matcher: Denylist.Matcher, denylist: Denylist.Denylist,
    dump: Excerpt -> seq<Denylist.Field>, load: seq<Denylist.Field> -> Option<Excerpt>)

  function BuildHeader(f: CaseFile): Header
    requires f.TriageFile?
  {
    var c := f.content;
    Header(f.caseId, c.env, c.clusterId, c.streamId, c.topic, c.anomalyFamily, c.criticalityTier,
           c.finalAction, c.routingKey, c.triageTimestamp)
  }

  function BuildExcerpt(f: CaseFile): Excerpt
    requires f.TriageFile?
  {
    var c := f.content;
    Excerpt(f.caseId, c.env, c.clusterId, c.streamId, c.topic, c.anomalyFamily, c.topicRole,
            c.criticalityTier, c.routingKey, c.sustained, c.peak, c.evidence, c.findings, c.triageTimestamp)
  }

  /** sanitize_triage_excerpt_for_publish */
  function SanitizeExcerpt(b: Boundary, e: Excerpt): Option<Excerpt> {
    b.load(Denylist.SanitizeFields(b.matcher, b.denylist, b.dump(e)).0)
  }

  /** _readback_casefile_for_outbox_record; an error names the exception's type. */
  function Readback(b: Boundary, objects: Objects, row: Outbox.Row, readable: bool): (r: Result<CaseFile>)
    ensures b.codec.Lawful() && r.Ok? ==>
              && readable && row.path in objects && b.codec.Validate(Triage, objects[row.path]) == Some(r.value)
              && r.value.TriageFile? && b.codec.HasValidHash(r.value)
              && r.value.caseId == row.caseId && r.value.triageHash == row.hash
  {
    if !readable then Err("CriticalDependencyError")
    else if row.path !in objects then Err("InvariantViolation")
    else match b.codec.Validate(Triage, objects[row.path])
      case None => Err("InvariantViolation")
      case Some(f) =>
        if f.caseId != row.caseId then Err("InvariantViolation")
        else if f.OwnHash() != row.hash then Err("InvariantViolation")
        else Ok(f)
  }

  /** publish_case_events_after_invariant_a up to the call of the broker client. */
  function PrepareEvents(b: Boundary, objects: Objects, row: Outbox.Row, readable: bool): Result<Publication> {
    if row.status != Outbox.Ready && row.status != Outbox.Retry then Err("InvariantViolation")
    else match Readback(b, objects, row, readable)
      case Err(e) => Err(e)
      case Ok(f) =>
        if !f.TriageFile? then Err("InvariantViolation")
        else match SanitizeExcerpt(b, BuildExcerpt(f))
          case None => Err("DenylistSanitizationError")
          case Some(e) => Ok(Publication(BuildHeader(f), e, f))
  }

  /** The pair is the one and only rendering of its source, and the source is hash-valid. */
  predicate Genuine(b: Boundary, p: Publication) {
    && p.source.TriageFile? && b.codec.HasValidHash(p.source)
    && p.header == BuildHeader(p.source) && Some(p.excerpt) == SanitizeExcerpt(b, BuildExcerpt(p.source))
  }

  /** Two genuine publications that carry one case_id and one triage hash are the same message,
      or the canonical bytes of their sources are a SHA-256 collision. */
  lemma SameHashSameMessage(b: Boundary, p: Publication, q: Publication)
    requires b.codec.Lawful() && Genuine(b, p) && Genuine(b, q) && p.source.triageHash == q.source.triageHash
    ensures || p == q
            || (b.codec.CanonicalBytes(p.source) != b.codec.CanonicalBytes(q.source)
                && b.codec.sha256(b.codec.CanonicalBytes(p.source)) == b.codec.sha256(b.codec.CanonicalBytes(q.source)))
  {
    EqualHashesEqualFiles(b.codec, p.source, q.source);
  }

  // ---------------------------------------------------------------- what a message says

  /** Each header field is the field of that name in the case file. */
  predicate HeaderSays(h: Header, f: CaseFile) {
    && f.TriageFile? && h.caseId == f.caseId && h.env == f.content.env && h.clusterId == f.content.clusterId
    && h.streamId == f.content.streamId && h.topic == f.content.topic && h.anomalyFamily == f.content.anomalyFamily
    && h.criticalityTier == f.content.criticalityTier && h.finalAction == f.content.finalAction
    && h.routingKey == f.content.routingKey && h.evaluationTs == f.content.triageTimestamp
  }

  /** Each excerpt field is the field of that name in the case file. */
  predicate ExcerptSays(e: Excerpt, f: CaseFile) {
    && f.TriageFile? && e.caseId == f.caseId && e.env == f.content.env && e.clusterId == f.content.clusterId
    && e.streamId == f.content.streamId && e.topic == f.content.topic && e.anomalyFamily == f.content.anomalyFamily
    && e.topicRole == f.content.topicRole && e.criticalityTier == f.content.criticalityTier
    && e.routingKey == f.content.routingKey && e.sustained == f.content.sustained && e.peak == f.content.peak
    && e.evidence == f.content.evidence && e.findings == f.content.findings && e.triageTimestamp == f.content.triageTimestamp
  }

  /** The message says what its source says; the excerpt after the denylist has gone over its dump and the result has
      been validated again. */
  ghost predicate Says(b: Boundary, p: Publication) {
    && HeaderSays(p.header, p.source)
    && exists e :: ExcerptSays(e, p.source) && b.load(Denylist.SanitizeFields(b.matcher, b.denylist, b.dump(e)).0) == Some(p.excerpt)
  }

  /** Every message that is prepared, whatever the bucket and the row, says what the case file it was read from says. */
  lemma PreparedSays(b: Boundary, objects: Objects, row: Outbox.Row, readable: bool)
    requires PrepareEvents(b, objects, row, readable).Ok?
    ensures Says(b, PrepareEvents(b, objects, row, readable).value)
  {
    var p := PrepareEvents(b, objects, row, readable).value;
    assert ExcerptSays(BuildExcerpt(p.source), p.source);
  }

  lemma GenuineSays(b: Boundary, p: Publication)
    requires Genuine(b, p)
    ensures Says(b, p)
  {
    assert ExcerptSays(BuildExcerpt(p.source), p.source);
  }

  /** What is dumped for the excerpt never shows a denied name or a matching string, tuples aside. */
  lemma PublishedIsClean(b: Boundary, e: Excerpt)
    requires forall f :: f in b.dump(e) ==> b.denylist.DeniesName(b.matcher, f.key) || Denylist.TuplesClean(b.matcher, b.denylist, f.value)
    ensures forall f :: f in Denylist.SanitizeFields(b.matcher, b.denylist, b.dump(e)).0 ==>
              !b.denylist.DeniesName(b.matcher, f.key) && Denylist.Clean(b.matcher, b.denylist, f.value)
  {
    Denylist.FieldsClean(b.matcher, b.denylist, b.dump(e));
  }

  /** Only READY and RETRY rows are published, and the code recorded for a failure tells where it failed: the object store
      could not be read, the denylist broke the excerpt, the row and its file do not fit, or the broker raised. */
  lemma FailureCodes(b: Boundary, objects: Objects, row: Outbox.Row, readable: bool, emit: Emit)
    ensures var prepared := PrepareEvents(b, objects, row, readable);
            var code := FailureOf(prepared, emit).code;
            && (prepared.Ok? ==> row.status == Outbox.Ready || row.status == Outbox.Retry)
            && (row.status != Outbox.Ready && row.status != Outbox.Retry ==> code == Some("InvariantViolation"))
            && (row.status == Outbox.Ready || row.status == Outbox.Retry ==>
                  && (!readable ==> prepared.Err? && code == Some("CriticalDependencyError"))
                  && (readable && Readback(b, objects, row, readable).Err? ==> prepared.Err? && code == Some("InvariantViolation"))
                  && (Readback(b, objects, row, readable).Ok? && Readback(b, objects, row, readable).value.TriageFile? && prepared.Err? ==>
                        code == Some("DenylistSanitizationError")))
            && (prepared.Ok? && emit.RaisedAfter? ==> code == Some(emit.exception))
  {
  }

  /** What a broker call leaves behind: both messages when it returns; when it raises, the parts it had delivered. */
  lemma DeliveryShows(pub: Publication, emit: Emit)
    ensures emit.Delivered? ==> Deliver(pub, emit) == [Delivery(pub, true, true)]
    ensures emit.RaisedAfter? ==>
              && (Deliver(pub, emit) == [] <==> !emit.header && !emit.excerpt)
              && (emit.header || emit.excerpt ==>
                    && |Deliver(pub, emit)| == 1 && Deliver(pub, emit)[0].pub == pub
                    && Deliver(pub, emit)[0].header == emit.header && Deliver(pub, emit)[0].excerpt == emit.excerpt)
  {
  }
}
