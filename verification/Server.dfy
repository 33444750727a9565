/**
  The life cycle of concurrent image requests over the two-level cache, as a transition system whose steps
  are the places where another request or a pending store write can come in between.
 */
module Server {
  import opened Text
  import opened Params
  import opened ParamsRoundTrip
  import opened Negotiate
  import opened CacheKeys
  import opened ObjectKeys
  import opened TieredCache
  import M = MemoryCache

  /** A validated request, after the slow-connection override. */
  datatype Request = Request(path: string, params: TransformParams, header: Option<string>)

  function RequestKey(r: Request): string {
    ComputeCacheKey(r.path, CacheKey(r.params), CacheFormatSegment(r.header, r.params.format))
  }

  datatype RenditionData = RenditionData(data: seq<U8>, format: OutputFormat)

  /** What a successful transform returns: its format is a concrete one. */
  type Rendition = r: RenditionData | r.format != Auto witness RenditionData([], Jpeg)

  datatype TransformError = ExceedsMaxPixels | Vips | ThumbhashFailed

  datatype Outcome = Success | Failed(error: TransformError) | Panicked

  /**
    The settings, and the world: the bytes that a transform of a request returns when it succeeds, the facts
    about its source that decide their format, and where its origin image can be reached for a redirect.
   */
  datatype Config = Config(l1Max: nat, permits: nat, failClosed: bool, data: Request -> seq<U8>,
                           source: Request -> Source, redirect: Request -> Option<string>)
  {
    function Render(r: Request): Rendition {
      var fast := r.params.compression == Some(Fast);
      FormatIsConcrete(r.header, r.params.format, source(r), fast);
      RenditionData(data(r), ResultFormat(r.header, r.params.format, source(r), fast))
    }
  }

  datatype Response =
    | Cached(data: seq<U8>, contentType: string)
    | Rendered(data: seq<U8>, contentType: string)
    | RawBytes
    | RedirectTo(location: string)
    | Envelope(status: nat, noStore: bool)
    | Busy
    | OriginFailed

  // ---------------------------------------------------------------------------
  // Failed transforms
  // ---------------------------------------------------------------------------

  /** Source and decoder failures are the client's; the rest is ours. */
  function FailureStatus(outcome: Outcome): nat {
    match outcome
    case Failed(ExceedsMaxPixels) => 422
    case Failed(Vips) => 422
    case _ => 500
  }

  function HandleTransformFailure(c: Config, r: Request): Response {
    if r.params.onerror == Some(Redirect) && c.redirect(r).Some? then RedirectTo(c.redirect(r).value) else RawBytes
  }

  function FailedTransformResponse(c: Config, r: Request, outcome: Outcome): Response {
    if c.failClosed then Envelope(FailureStatus(outcome), true)
    else if r.params.format == Some(Thumbhash) then Envelope(FailureStatus(outcome), false)
    else HandleTransformFailure(c, r)
  }

  /** Origin bytes and redirects are given exactly when neither the mode nor the format forbids it. */
  lemma FailureExposesOrigin(c: Config, r: Request, outcome: Outcome)
    ensures FailedTransformResponse(c, r, outcome).RawBytes? || FailedTransformResponse(c, r, outcome).RedirectTo?
      <==> !c.failClosed && r.params.format != Some(Thumbhash)
    ensures FailedTransformResponse(c, r, outcome).RedirectTo? ==> r.params.onerror == Some(Redirect)
  {}

  // ---------------------------------------------------------------------------
  // The system
  // ---------------------------------------------------------------------------

  datatype Phase =
    | Arrived
    | MemoryMiss
    | StoreHit(entry: CacheEntry)
    | Missed
    | Fetched
    | Running
    | Done(outcome: Outcome)
    | Answered(response: Response)
    | Abandoned

  /** `succeeded` records, for the statements only, the requests whose transform has returned a result. */
  datatype System = System(tier: Tier, permits: nat, tasks: set<nat>, requests: map<nat, Request>,
                           phases: map<nat, Phase>, succeeded: set<Request>)

  function Init(c: Config): System {
    System(EMPTY, c.permits, {}, map[], map[], {})
  }

  datatype Step =
    | Arrive(id: nat, request: Request)
    | LookInMemory(id: nat)
    | LookInStore(id: nat, reachable: bool, now: int)
    | PromoteHit(id: nat)
    | OriginFails(id: nat)
    | OriginAnswers(id: nat)
    | Acquire(id: nat)
    | Finish(id: nat, outcome: Outcome)
    | KeepResult(id: nat, now: int)
    | AnswerFailure(id: nat)
    | Abandon(id: nat)
    | LandWrite(write: PendingWrite, reached: bool)
    | DeleteInMemory(key: string)
    | DeleteInStore(key: string)
    | ClearMemory

  predicate At(s: System, id: nat, phase: Phase) {
    id in s.phases && id in s.requests && s.phases[id] == phase
  }

  function Move(s: System, id: nat, phase: Phase): System {
    s.(phases := s.phases[id := phase])
  }

  function Entry(c: Config, r: Request, now: int): CacheEntry {
    M.CacheEntry(c.Render(r).data, c.Render(r).format.ContentType(), now)
  }

  /** One step; a step whose guard does not hold changes nothing. */
  function Do(c: Config, s: System, step: Step): System {
    match step
    case Arrive(id, r) =>
      if id in s.phases || id in s.requests then s
      else s.(requests := s.requests[id := r], phases := s.phases[id := Arrived])
    case LookInMemory(id) =>
      if !At(s, id, Arrived) then s
      else
        var (tier, found) := ReadMemory(s.tier, RequestKey(s.requests[id]));
        Move(s, id, if found.Some? then Answered(Cached(found.value.data, found.value.contentType)) else MemoryMiss)
          .(tier := tier)
    case LookInStore(id, reachable, now) =>
      if !At(s, id, MemoryMiss) then s
      else
        var found := StoreGet(s.tier.l2, RequestKey(s.requests[id]), reachable, now);
        Move(s, id, if found.Some? then StoreHit(found.value) else Missed)
    case PromoteHit(id) =>
      if !(id in s.phases && id in s.requests && s.phases[id].StoreHit?) then s
      else
        var e := s.phases[id].entry;
        Move(s, id, Answered(Cached(e.data, e.contentType)))
          .(tier := Promote(s.tier, RequestKey(s.requests[id]), e, c.l1Max))
    case OriginFails(id) =>
      if At(s, id, Missed) then Move(s, id, Answered(OriginFailed)) else s
    case OriginAnswers(id) =>
      if At(s, id, Missed) then Move(s, id, Fetched) else s
    case Acquire(id) =>
      if !At(s, id, Fetched) then s
      else if s.permits == 0 then Move(s, id, Answered(Busy))
      else Move(s, id, Running).(permits := s.permits - 1, tasks := s.tasks + {id})
    case Finish(id, outcome) =>
      if id !in s.tasks || id !in s.requests then s
      else
        var freed := s.(permits := s.permits + 1, tasks := s.tasks - {id},
                        succeeded := if outcome == Success then s.succeeded + {s.requests[id]} else s.succeeded);
        if At(s, id, Running) then Move(freed, id, Done(outcome)) else freed
    case KeepResult(id, now) =>
      if !At(s, id, Done(Success)) then s
      else
        var r := s.requests[id];
        var e := Entry(c, r, now);
        Move(s, id, Answered(Rendered(e.data, e.contentType)))
          .(tier := Written(s.tier, RequestKey(r), e, c.l1Max))
    case AnswerFailure(id) =>
      if !(id in s.phases && id in s.requests && s.phases[id].Done? && s.phases[id].outcome != Success) then s
      else Move(s, id, Answered(FailedTransformResponse(c, s.requests[id], s.phases[id].outcome)))
    case Abandon(id) =>
      if id in s.phases && id in s.requests && !s.phases[id].Answered? then Move(s, id, Abandoned) else s
    case LandWrite(w, reached) =>
      if w in s.tier.pending then s.(tier := Land(s.tier, w, reached)) else s
    case DeleteInMemory(key) =>
      s.(tier := s.tier.(l1 := M.Without(s.tier.l1, key)))
    case DeleteInStore(key) =>
      s.(tier := s.tier.(l2 := StoreDelete(s.tier.l2, key)))
    case ClearMemory =>
      s.(tier := s.tier.(l1 := []))
  }

  function Run(c: Config, steps: seq<Step>): System {
    if steps == [] then Init(c) else Do(c, Run(c, steps[..|steps| - 1]), steps[|steps| - 1])
  }

  // ---------------------------------------------------------------------------
  // Permits
  // ---------------------------------------------------------------------------

  /** Each running task holds one permit, and only started requests have tasks. */
  predicate PermitsSound(c: Config, s: System) {
    && s.permits + |s.tasks| == c.permits
    && s.requests.Keys == s.phases.Keys
    && (forall id :: id in s.phases && s.phases[id] == Running ==> id in s.tasks)
    && (forall id :: id in s.tasks ==> id in s.phases && (s.phases[id] == Running || s.phases[id] == Abandoned))
  }

  /** Whether a step can only answer or advance a request that has no task, or touch the cache. */
  predicate LeavesTasks(step: Step) {
    !step.Arrive? && !step.Acquire? && !step.Finish? && !step.Abandon?
  }

  lemma QuietStep(c: Config, s: System, step: Step)
    requires PermitsSound(c, s) && LeavesTasks(step)
    ensures var t := Do(c, s, step);
      && t.permits == s.permits && t.tasks == s.tasks && t.requests == s.requests
      && t.phases.Keys == s.phases.Keys
      && forall id :: id in s.phases && t.phases[id] != s.phases[id] ==> id !in s.tasks && t.phases[id] != Running
  {
    hide RequestKey, ReadMemory, StoreGet, Promote, Land, StoreDelete, FailedTransformResponse, Entry, Written;
    hide M.Without;
  }

  lemma ArrivalKeepsPermits(c: Config, s: System, id: nat, r: Request)
    requires PermitsSound(c, s)
    ensures PermitsSound(c, Do(c, s, Arrive(id, r)))
  {
    assert id in s.tasks ==> id in s.phases;
  }

  lemma AcquireKeepsPermits(c: Config, s: System, id: nat)
    requires PermitsSound(c, s)
    ensures PermitsSound(c, Do(c, s, Acquire(id)))
  {
    hide RequestKey, ReadMemory, StoreGet, Promote, Land, StoreDelete, FailedTransformResponse, Entry, Written;
    if At(s, id, Fetched) {
      assert id !in s.tasks;
      assert |s.tasks + {id}| == |s.tasks| + 1;
    }
  }

  lemma FinishKeepsPermits(c: Config, s: System, id: nat, outcome: Outcome)
    requires PermitsSound(c, s)
    ensures PermitsSound(c, Do(c, s, Finish(id, outcome)))
  {
    if id in s.tasks {
      assert |s.tasks - {id}| == |s.tasks| - 1;
    }
  }

  lemma AbandonKeepsPermits(c: Config, s: System, id: nat)
    requires PermitsSound(c, s)
    ensures PermitsSound(c, Do(c, s, Abandon(id)))
  {}

  lemma StepKeepsPermits(c: Config, s: System, step: Step)
    requires PermitsSound(c, s)
    ensures PermitsSound(c, Do(c, s, step))
  {
    hide Do;
    match step
    case Arrive(id, r) => ArrivalKeepsPermits(c, s, id, r);
    case Acquire(id) => AcquireKeepsPermits(c, s, id);
    case Finish(id, outcome) => FinishKeepsPermits(c, s, id, outcome);
    case Abandon(id) => AbandonKeepsPermits(c, s, id);
    case _ => QuietStep(c, s, step);
  }

  /**
    Over every run, free permits and running tasks add up to the capacity, even when clients go away while
    their transform runs: the task keeps its permit until it ends.
   */
  lemma {:induction false} RunKeepsPermits(c: Config, steps: seq<Step>)
    ensures PermitsSound(c, Run(c, steps))
    decreases |steps|
  {
    hide PermitsSound, Do;
    if steps == [] {
      InitPermits(c);
    } else {
      RunKeepsPermits(c, steps[..|steps| - 1]);
      StepKeepsPermits(c, Run(c, steps[..|steps| - 1]), steps[|steps| - 1]);
    }
  }

  lemma InitPermits(c: Config)
    ensures PermitsSound(c, Init(c))
  {}

  // ---------------------------------------------------------------------------
  // What the cache holds
  // ---------------------------------------------------------------------------

  /** Whether the store keeps what is written under the first key where reads of the second one look. */
  predicate ShareObject(key: string, other: string) {
    Sanitized(key).Some? && Sanitized(key) == Sanitized(other)
  }

  /**
    Whether the rendition of a request can come back under a key: the store holds it for that key, or the key
    is its own and memory has room for it. A key that the store refuses is kept in memory only.
   */
  predicate Reaches(c: Config, r: Request, key: string) {
    ShareObject(RequestKey(r), key) || (RequestKey(r) == key && Entry(c, r, 0).Size() <= c.l1Max)
  }

  predicate Yields(c: Config, r: Request, data: seq<U8>, contentType: string) {
    data == c.Render(r).data && contentType == c.Render(r).format.ContentType()
  }

  /** What a read of the key may return: the result of a successful transform that reaches the key. */
  ghost predicate Readable(c: Config, succeeded: set<Request>, key: string, data: seq<U8>, contentType: string) {
    exists r :: r in succeeded && Reaches(c, r, key) && Yields(c, r, data, contentType)
  }

  /** What may be written under the key: the result of a successful transform with that key. */
  ghost predicate Writable(c: Config, succeeded: set<Request>, key: string, data: seq<U8>, contentType: string) {
    exists r :: r in succeeded && RequestKey(r) == key && Yields(c, r, data, contentType)
  }

  /** What the store may hold: the result of a successful transform with that object key. */
  ghost predicate Storable(c: Config, succeeded: set<Request>, objectKey: string, data: seq<U8>, contentType: string) {
    exists r :: r in succeeded && Sanitized(RequestKey(r)) == Some(objectKey) && Yields(c, r, data, contentType)
  }

  ghost predicate TierSound(c: Config, succeeded: set<Request>, t: Tier) {
    && M.DistinctKeys(t.l1)
    && (forall x :: x in t.l1 ==> Readable(c, succeeded, x.0, x.1.data, x.1.contentType))
    && (forall k :: k in t.l2 ==> Storable(c, succeeded, k, t.l2[k].data, t.l2[k].contentType))
    && (forall w :: w in t.pending ==> Writable(c, succeeded, w.0, w.1.data, w.1.contentType))
  }

  ghost predicate CacheSound(c: Config, s: System) {
    TierSound(c, s.succeeded, s.tier)
  }

  /** Whether an answer is one that the request may get. */
  ghost predicate AnswerSound(c: Config, succeeded: set<Request>, r: Request, response: Response) {
    match response
    case Cached(data, contentType) => Readable(c, succeeded, RequestKey(r), data, contentType)
    case Rendered(data, contentType) =>
      r in succeeded && data == c.Render(r).data && contentType == c.Render(r).format.ContentType()
    case RawBytes => !c.failClosed && r.params.format != Some(Thumbhash)
    case RedirectTo(location) =>
      !c.failClosed && r.params.format != Some(Thumbhash) && r.params.onerror == Some(Redirect)
      && c.redirect(r) == Some(location)
    case Envelope(status, noStore) =>
      && (status == 422 || status == 500) && noStore == c.failClosed
      && (c.failClosed || r.params.format == Some(Thumbhash))
    case Busy => true
    case OriginFailed => true
  }

  ghost predicate PhaseSound(c: Config, succeeded: set<Request>, r: Request, phase: Phase) {
    match phase
    case StoreHit(e) => Readable(c, succeeded, RequestKey(r), e.data, e.contentType)
    case Done(outcome) => outcome == Success ==> r in succeeded
    case Answered(response) => AnswerSound(c, succeeded, r, response)
    case _ => true
  }

  ghost predicate PhasesSound(c: Config, s: System) {
    && s.requests.Keys == s.phases.Keys
    && forall id :: id in s.phases ==> PhaseSound(c, s.succeeded, s.requests[id], s.phases[id])
  }

  lemma Monotone(c: Config, a: set<Request>, b: set<Request>, k: string, data: seq<U8>, contentType: string)
    requires a <= b
    ensures Readable(c, a, k, data, contentType) ==> Readable(c, b, k, data, contentType)
    ensures Writable(c, a, k, data, contentType) ==> Writable(c, b, k, data, contentType)
    ensures Storable(c, a, k, data, contentType) ==> Storable(c, b, k, data, contentType)
  {
    hide RequestKey, Reaches, Sanitized, Yields;
  }

  lemma PhaseMonotone(c: Config, a: set<Request>, b: set<Request>, r: Request, phase: Phase)
    requires a <= b && PhaseSound(c, a, r, phase)
    ensures PhaseSound(c, b, r, phase)
  {
    hide RequestKey, Readable;
    match phase
    case StoreHit(e) => Monotone(c, a, b, RequestKey(r), e.data, e.contentType);
    case Answered(Cached(data, contentType)) => Monotone(c, a, b, RequestKey(r), data, contentType);
    case _ =>
  }

  lemma TierMonotone(c: Config, a: set<Request>, b: set<Request>, t: Tier)
    requires TierSound(c, a, t) && a <= b
    ensures TierSound(c, b, t)
  {
    hide Readable, Writable, Storable;
    forall x | x in t.l1 ensures Readable(c, b, x.0, x.1.data, x.1.contentType) {
      Monotone(c, a, b, x.0, x.1.data, x.1.contentType);
    }
    forall k | k in t.l2 ensures Storable(c, b, k, t.l2[k].data, t.l2[k].contentType) {
      Monotone(c, a, b, k, t.l2[k].data, t.l2[k].contentType);
    }
    forall w | w in t.pending ensures Writable(c, b, w.0, w.1.data, w.1.contentType) {
      Monotone(c, a, b, w.0, w.1.data, w.1.contentType);
    }
  }

  /** A type stored for a concrete format is never the one that the store reader second-guesses. */
  lemma ConcreteTypeIsKept(f: OutputFormat)
    requires f != Auto
    ensures f.ContentType() != OCTET_STREAM
  {}

  lemma FromObjectKeeps(c: Config, r: Request, o: Object, now: int)
    requires Yields(c, r, o.data, o.contentType)
    ensures Yields(c, r, FromObject(o, now).data, FromObject(o, now).contentType)
  {
    hide OutputFormat.ContentType, DetectContentType;
    ConcreteTypeIsKept(c.Render(r).format);
  }

  lemma StoreGetSound(c: Config, s: System, key: string, reachable: bool, now: int)
    requires CacheSound(c, s) && StoreGet(s.tier.l2, key, reachable, now).Some?
    ensures var e := StoreGet(s.tier.l2, key, reachable, now).value;
      Readable(c, s.succeeded, key, e.data, e.contentType)
  {
    hide RequestKey, Sanitized, FromObject, M.DistinctKeys, Yields;
    var k := Sanitized(key).value;
    var o := s.tier.l2[k];
    var r :| r in s.succeeded && Sanitized(RequestKey(r)) == Some(k) && Yields(c, r, o.data, o.contentType);
    FromObjectKeeps(c, r, o, now);
    assert Reaches(c, r, key);
  }

  lemma PromoteSound(c: Config, succeeded: set<Request>, t: Tier, key: string, e: CacheEntry)
    requires TierSound(c, succeeded, t)
    requires e.Size() <= c.l1Max ==> Readable(c, succeeded, key, e.data, e.contentType)
    ensures TierSound(c, succeeded, Promote(t, key, e, c.l1Max))
  {
    M.StoredFacts(t.l1, key, e, c.l1Max);
    hide Readable, Writable, Storable, M.Stored, M.DistinctKeys;
  }

  lemma WrittenSound(c: Config, succeeded: set<Request>, t: Tier, r: Request, now: int)
    requires TierSound(c, succeeded, t) && r in succeeded
    ensures TierSound(c, succeeded, Written(t, RequestKey(r), Entry(c, r, now), c.l1Max))
  {
    OwnEntry(c, succeeded, r, now);
    var key, e := RequestKey(r), Entry(c, r, now);
    PromoteSound(c, succeeded, t, key, e);
    hide Readable, Writable, Storable, M.Stored, M.DistinctKeys, RequestKey, Entry;
  }

  lemma OwnEntry(c: Config, succeeded: set<Request>, r: Request, now: int)
    requires r in succeeded
    ensures var e := Entry(c, r, now);
      && Writable(c, succeeded, RequestKey(r), e.data, e.contentType)
      && (e.Size() <= c.l1Max ==> Readable(c, succeeded, RequestKey(r), e.data, e.contentType))
  {
    hide RequestKey, Sanitized, OutputFormat.ContentType;
    assert Yields(c, r, Entry(c, r, now).data, Entry(c, r, now).contentType);
    assert Entry(c, r, now).Size() == Entry(c, r, 0).Size();
  }

  lemma LandSound(c: Config, succeeded: set<Request>, t: Tier, w: PendingWrite, reached: bool)
    requires TierSound(c, succeeded, t) && w in t.pending
    ensures TierSound(c, succeeded, Land(t, w, reached))
  {
    hide RequestKey, Sanitized, Readable, Yields, M.DistinctKeys;
    var u := Land(t, w, reached);
    assert forall v :: v in u.pending ==> v in t.pending;
    assert Writable(c, succeeded, w.0, w.1.data, w.1.contentType);
    if Sanitized(w.0).Some? {
      assert Storable(c, succeeded, Sanitized(w.0).value, w.1.data, w.1.contentType);
    }
    hide Writable, Storable;
  }

  /** Fewer or reordered memory entries are as sound. */
  lemma FewerEntriesSound(c: Config, succeeded: set<Request>, t: Tier, slots: M.Slots)
    requires TierSound(c, succeeded, t) && M.DistinctKeys(slots) && forall x :: x in slots ==> x in t.l1
    ensures TierSound(c, succeeded, t.(l1 := slots))
  {
    hide Readable, Writable, Storable, M.DistinctKeys;
  }

  lemma FewerObjectsSound(c: Config, succeeded: set<Request>, t: Tier, key: string)
    requires TierSound(c, succeeded, t)
    ensures TierSound(c, succeeded, t.(l2 := StoreDelete(t.l2, key)))
  {
    hide Readable, Writable, Storable, M.DistinctKeys, Sanitized;
  }

  lemma DropSound(c: Config, succeeded: set<Request>, t: Tier, key: string)
    requires TierSound(c, succeeded, t)
    ensures TierSound(c, succeeded, t.(l1 := M.Without(t.l1, key)))
    ensures TierSound(c, succeeded, t.(l1 := []))
    ensures TierSound(c, succeeded, t.(l1 := M.Touched(t.l1, key)))
  {
    M.WithoutFacts(t.l1, key);
    M.TouchedFacts(t.l1, key);
    hide Readable, Writable, Storable, M.Without, M.Touched;
    FewerEntriesSound(c, succeeded, t, M.Without(t.l1, key));
    FewerEntriesSound(c, succeeded, t, M.Touched(t.l1, key));
    FewerEntriesSound(c, succeeded, t, []);
  }

  lemma StepKeepsCache(c: Config, s: System, step: Step)
    requires CacheSound(c, s) && PhasesSound(c, s)
    ensures CacheSound(c, Do(c, s, step))
  {
    hide TierSound, Readable, AnswerSound, RequestKey, StoreGet, StoreDelete, Promote, Written, Land, Entry;
    hide FailedTransformResponse, M.Touched, M.Without, M.Lookup;
    match step
    case LandWrite(w, reached) =>
      if w in s.tier.pending { LandSound(c, s.succeeded, s.tier, w, reached); }
    case DeleteInMemory(key) => DropSound(c, s.succeeded, s.tier, key);
    case DeleteInStore(key) => FewerObjectsSound(c, s.succeeded, s.tier, key);
    case ClearMemory => DropSound(c, s.succeeded, s.tier, []);
    case LookInMemory(id) =>
      if At(s, id, Arrived) { DropSound(c, s.succeeded, s.tier, RequestKey(s.requests[id])); }
    case PromoteHit(id) =>
      if id in s.phases && id in s.requests && s.phases[id].StoreHit? {
        PromoteSound(c, s.succeeded, s.tier, RequestKey(s.requests[id]), s.phases[id].entry);
      }
    case KeepResult(id, now) =>
      if At(s, id, Done(Success)) {
        WrittenSound(c, s.succeeded, s.tier, s.requests[id], now);
      }
    case Finish(id, outcome) =>
      if id in s.tasks && id in s.requests {
        TierMonotone(c, s.succeeded, s.succeeded + {s.requests[id]}, s.tier);
      }
    case _ =>
  }

  lemma MemoryHitSound(c: Config, s: System, key: string)
    requires CacheSound(c, s) && M.Lookup(s.tier.l1, key).Some?
    ensures var e := M.Lookup(s.tier.l1, key).value; Readable(c, s.succeeded, key, e.data, e.contentType)
  {
    M.LookupFinds(s.tier.l1, key);
    hide Readable, Writable, Storable;
  }

  lemma MovedSound(c: Config, s: System, id: nat, phase: Phase, tier: Tier)
    requires PhasesSound(c, s) && id in s.phases && PhaseSound(c, s.succeeded, s.requests[id], phase)
    ensures PhasesSound(c, Move(s, id, phase).(tier := tier))
  {
    hide PhaseSound;
  }

  lemma FinishKeepsPhases(c: Config, s: System, id: nat, outcome: Outcome)
    requires PhasesSound(c, s)
    ensures PhasesSound(c, Do(c, s, Finish(id, outcome)))
  {
    var t := Do(c, s, Finish(id, outcome));
    forall i | i in s.phases ensures PhaseSound(c, t.succeeded, s.requests[i], s.phases[i]) {
      PhaseMonotone(c, s.succeeded, t.succeeded, s.requests[i], s.phases[i]);
    }
    hide Readable, AnswerSound, RequestKey;
  }

  lemma LookupKeepsPhases(c: Config, s: System, id: nat)
    requires CacheSound(c, s) && PhasesSound(c, s)
    ensures PhasesSound(c, Do(c, s, LookInMemory(id)))
  {
    hide Readable, RequestKey, M.Lookup, M.Touched, CacheSound;
    if At(s, id, Arrived) {
      var key := RequestKey(s.requests[id]);
      var (tier, found) := ReadMemory(s.tier, key);
      if found.Some? { MemoryHitSound(c, s, key); }
      MovedSound(c, s, id, Do(c, s, LookInMemory(id)).phases[id], tier);
    }
  }

  lemma StoreLookKeepsPhases(c: Config, s: System, id: nat, reachable: bool, now: int)
    requires CacheSound(c, s) && PhasesSound(c, s)
    ensures PhasesSound(c, Do(c, s, LookInStore(id, reachable, now)))
  {
    hide Readable, RequestKey, StoreGet, TierSound;
    if At(s, id, MemoryMiss) && StoreGet(s.tier.l2, RequestKey(s.requests[id]), reachable, now).Some? {
      StoreGetSound(c, s, RequestKey(s.requests[id]), reachable, now);
    }
  }

  lemma KeepKeepsPhases(c: Config, s: System, id: nat, now: int)
    requires PhasesSound(c, s)
    ensures PhasesSound(c, Do(c, s, KeepResult(id, now)))
  {
    hide Readable, RequestKey, Written;
    if At(s, id, Done(Success)) { assert PhaseSound(c, s.succeeded, s.requests[id], s.phases[id]); }
  }

  lemma PromoteKeepsPhases(c: Config, s: System, id: nat)
    requires PhasesSound(c, s)
    ensures PhasesSound(c, Do(c, s, PromoteHit(id)))
  {
    hide Readable, RequestKey, Promote;
  }

  /** A failed transform exposes the origin no further than its answers may. */
  lemma FailureIsSound(c: Config, succeeded: set<Request>, r: Request, outcome: Outcome)
    requires outcome != Success
    ensures AnswerSound(c, succeeded, r, FailedTransformResponse(c, r, outcome))
  {
    FailureExposesOrigin(c, r, outcome);
    hide Readable;
  }

  lemma AnswerKeepsPhases(c: Config, s: System, id: nat)
    requires PhasesSound(c, s)
    ensures PhasesSound(c, Do(c, s, AnswerFailure(id)))
  {
    if id in s.phases && s.phases[id].Done? && s.phases[id].outcome != Success {
      FailureIsSound(c, s.succeeded, s.requests[id], s.phases[id].outcome);
    }
    hide Readable, RequestKey, FailedTransformResponse;
  }

  lemma OtherKeepsPhases(c: Config, s: System, step: Step)
    requires PhasesSound(c, s)
    requires !step.LookInMemory? && !step.LookInStore? && !step.KeepResult? && !step.Finish?
    requires !step.PromoteHit? && !step.AnswerFailure?
    ensures PhasesSound(c, Do(c, s, step))
  {
    hide Readable, RequestKey, StoreGet, Promote, Written, Land, ReadMemory, StoreDelete;
    hide M.Without, M.Touched, M.Lookup, Entry, FailedTransformResponse;
  }

  lemma StepKeepsPhases(c: Config, s: System, step: Step)
    requires CacheSound(c, s) && PhasesSound(c, s)
    ensures PhasesSound(c, Do(c, s, step))
  {
    hide PhasesSound, CacheSound, Do, RequestKey;
    match step
    case LookInMemory(id) => LookupKeepsPhases(c, s, id);
    case LookInStore(id, reachable, now) => StoreLookKeepsPhases(c, s, id, reachable, now);
    case KeepResult(id, now) => KeepKeepsPhases(c, s, id, now);
    case Finish(id, outcome) => FinishKeepsPhases(c, s, id, outcome);
    case PromoteHit(id) => PromoteKeepsPhases(c, s, id);
    case AnswerFailure(id) => AnswerKeepsPhases(c, s, id);
    case _ => OtherKeepsPhases(c, s, step);
  }

  /**
    Over every interleaving, with store writes pending, reordered or lost, reads split by promotions, evictions
    and deletes: everything the cache holds, and everything a request is answered with, comes from a successful
    transform; and an answer from the cache comes from a request that reaches the key.
   */
  lemma {:induction false} RunIsSound(c: Config, steps: seq<Step>)
    ensures CacheSound(c, Run(c, steps)) && PhasesSound(c, Run(c, steps))
    decreases |steps|
  {
    hide CacheSound, PhasesSound, Do;
    if steps == [] {
      InitSound(c);
    } else {
      RunIsSound(c, steps[..|steps| - 1]);
      StepKeepsCache(c, Run(c, steps[..|steps| - 1]), steps[|steps| - 1]);
      StepKeepsPhases(c, Run(c, steps[..|steps| - 1]), steps[|steps| - 1]);
    }
  }

  lemma InitSound(c: Config)
    ensures CacheSound(c, Init(c)) && PhasesSound(c, Init(c))
  {}

  /** As long as no transform has succeeded, both levels stay empty: failures and panics write nothing. */
  lemma OnlySuccessIsKept(c: Config, steps: seq<Step>)
    requires Run(c, steps).succeeded == {}
    ensures Run(c, steps).tier == EMPTY
  {
    RunIsSound(c, steps);
    var t := Run(c, steps).tier;
    hide Run, RequestKey, Sanitized;
    assert forall k, data, ct :: !Readable(c, {}, k, data, ct) && !Writable(c, {}, k, data, ct);
    assert forall k, data, ct :: !Storable(c, {}, k, data, ct);
    hide Readable, Writable, Storable;
    assert multiset(t.l1) == multiset{};
    assert |t.l1| == |multiset(t.l1)|;
    assert t.l2.Keys == {};
    assert t.l2 == map[];
    assert t.pending == multiset{};
  }

  // ---------------------------------------------------------------------------
  // When a cached answer is the fresh one
  // ---------------------------------------------------------------------------

  /** Every request of the run satisfies the predicate. */
  predicate AllRequests(s: System, admitted: Request -> bool) {
    (forall id :: id in s.requests ==> admitted(s.requests[id])) && forall r :: r in s.succeeded ==> admitted(r)
  }

  predicate Admits(steps: seq<Step>, admitted: Request -> bool) {
    forall x :: x in steps && x.Arrive? ==> admitted(x.request)
  }

  lemma StepStaysAdmitted(c: Config, s: System, step: Step, admitted: Request -> bool)
    requires AllRequests(s, admitted) && (step.Arrive? ==> admitted(step.request))
    ensures AllRequests(Do(c, s, step), admitted)
  {
    hide RequestKey, ReadMemory, StoreGet, StoreDelete, Promote, Written, Land, Entry, M.Without, At;
    hide FailedTransformResponse;
  }

  lemma {:induction false} RunStaysAdmitted(c: Config, steps: seq<Step>, admitted: Request -> bool)
    requires Admits(steps, admitted)
    ensures AllRequests(Run(c, steps), admitted)
    decreases |steps|
  {
    hide Do;
    if steps != [] {
      var front, step := steps[..|steps| - 1], steps[|steps| - 1];
      assert forall x :: x in front ==> x in steps;
      assert step in steps;
      RunStaysAdmitted(c, front, admitted);
      StepStaysAdmitted(c, Run(c, front), step, admitted);
    }
  }

  /** The answer that a fresh transform of the request gives, as the cache would give it. */
  function Fresh(c: Config, r: Request): (answer: Response)
    ensures answer.Cached?
  {
    Cached(c.Render(r).data, c.Render(r).format.ContentType())
  }

  /** A request that reaches the key of another one has the same rendition. */
  ghost predicate KeysDecide(c: Config, admitted: Request -> bool) {
    forall r, q :: admitted(r) && admitted(q) && Reaches(c, r, RequestKey(q)) ==> Fresh(c, r) == Fresh(c, q)
  }

  /** Whether every answer given from the cache is what a fresh transform of that request returns. */
  predicate HitsFresh(c: Config, s: System) {
    forall id :: id in s.phases && id in s.requests && s.phases[id].Answered? && s.phases[id].response.Cached? ==>
      s.phases[id].response == Fresh(c, s.requests[id])
  }

  lemma ReadableIsFresh(c: Config, s: System, q: Request, answer: Response, admitted: Request -> bool)
    requires AllRequests(s, admitted) && admitted(q) && KeysDecide(c, admitted)
    requires answer.Cached? && AnswerSound(c, s.succeeded, q, answer)
    ensures answer == Fresh(c, q)
  {
    hide RequestKey, Reaches, OutputFormat.ContentType;
    var r :| r in s.succeeded && Reaches(c, r, RequestKey(q)) && Yields(c, r, answer.data, answer.contentType);
    assert Fresh(c, r) == Fresh(c, q);
  }

  lemma HitsAreFresh(c: Config, steps: seq<Step>, admitted: Request -> bool)
    requires Admits(steps, admitted) && KeysDecide(c, admitted)
    ensures HitsFresh(c, Run(c, steps))
  {
    RunIsSound(c, steps);
    RunStaysAdmitted(c, steps, admitted);
    var s := Run(c, steps);
    hide Run, CacheSound, AnswerSound, Fresh, KeysDecide;
    forall id | id in s.phases && s.phases[id].Answered? && s.phases[id].response.Cached?
      ensures s.phases[id].response == Fresh(c, s.requests[id])
    {
      assert PhaseSound(c, s.succeeded, s.requests[id], s.phases[id]);
      ReadableIsFresh(c, s, s.requests[id], s.phases[id].response, admitted);
    }
  }

  // The converse: a run in which one request is served and the next one reads its rendition.

  function DoAll(c: Config, s: System, steps: seq<Step>): System
    decreases |steps|
  {
    if steps == [] then s else DoAll(c, Do(c, s, steps[0]), steps[1..])
  }

  lemma {:induction false} RunIsDoAll(c: Config, front: seq<Step>, steps: seq<Step>)
    ensures Run(c, front + steps) == DoAll(c, Run(c, front), steps)
    decreases |steps|
  {
    hide Do;
    if steps == [] {
      assert front + steps == front;
    } else {
      assert front + steps == (front + [steps[0]]) + steps[1..];
      assert (front + [steps[0]])[..|front|] == front;
      RunIsDoAll(c, front + [steps[0]], steps[1..]);
    }
  }

  lemma {:induction false} DoAllAppend(c: Config, s: System, a: seq<Step>, b: seq<Step>)
    ensures DoAll(c, s, a + b) == DoAll(c, DoAll(c, s, a), b)
    decreases |a|
  {
    hide Do;
    if a == [] {
      assert a + b == b;
    } else {
      assert (a + b)[1..] == a[1..] + b;
      DoAllAppend(c, Do(c, s, a[0]), a[1..], b);
    }
  }

  lemma DoAllThree(c: Config, s: System, x: Step, y: Step, z: Step)
    ensures DoAll(c, s, [x, y, z]) == Do(c, Do(c, Do(c, s, x), y), z)
  {
    hide Do;
    assert [x, y, z][1..] == [y, z] && [y, z][1..] == [z] && [z][1..] == [];
    assert DoAll(c, Do(c, Do(c, s, x), y), [z]) == Do(c, Do(c, Do(c, s, x), y), z);
    assert DoAll(c, Do(c, s, x), [y, z]) == Do(c, Do(c, Do(c, s, x), y), z);
  }

  /** A system whose one request is in the given phase, over an empty cache. */
  function Alone(c: Config, r: Request, permits: nat, tasks: set<nat>, phase: Phase, succeeded: set<Request>): System {
    System(EMPTY, permits, tasks, map[0 := r], map[0 := phase], succeeded)
  }

  lemma AloneMoves(c: Config, r: Request, permits: nat, tasks: set<nat>, phase: Phase, succeeded: set<Request>,
                   next: Phase)
    ensures Move(Alone(c, r, permits, tasks, phase, succeeded), 0, next) == Alone(c, r, permits, tasks, next, succeeded)
  {
    assert map[0 := phase][0 := next] == map[0 := next];
  }

  function Asked(r: Request): seq<Step> {
    [Arrive(0, r), LookInMemory(0), LookInStore(0, false, 0)]
  }

  lemma AskedEnds(c: Config, r: Request)
    ensures DoAll(c, Init(c), Asked(r)) == Alone(c, r, c.permits, {}, Missed, {})
  {
    hide RequestKey;
    assert Do(c, Init(c), Arrive(0, r)) == Alone(c, r, c.permits, {}, Arrived, {});
    AloneMoves(c, r, c.permits, {}, Arrived, {}, MemoryMiss);
    assert Do(c, Alone(c, r, c.permits, {}, Arrived, {}), LookInMemory(0))
        == Alone(c, r, c.permits, {}, MemoryMiss, {});
    AloneMoves(c, r, c.permits, {}, MemoryMiss, {}, Missed);
    hide Move;
    DoAllThree(c, Init(c), Arrive(0, r), LookInMemory(0), LookInStore(0, false, 0));
  }

  const RENDER: seq<Step> := [OriginAnswers(0), Acquire(0), Finish(0, Success)]

  lemma RenderEnds(c: Config, r: Request)
    requires c.permits > 0
    ensures DoAll(c, Alone(c, r, c.permits, {}, Missed, {}), RENDER) == Alone(c, r, c.permits, {}, Done(Success), {r})
  {
    hide RequestKey;
    AloneMoves(c, r, c.permits, {}, Missed, {}, Fetched);
    AloneMoves(c, r, c.permits, {}, Fetched, {}, Running);
    AloneMoves(c, r, c.permits, {}, Running, {r}, Done(Success));
    var s := Alone(c, r, c.permits, {}, Missed, {});
    assert Do(c, s, OriginAnswers(0)) == Alone(c, r, c.permits, {}, Fetched, {});
    assert Do(c, Alone(c, r, c.permits, {}, Fetched, {}), Acquire(0)) == Alone(c, r, c.permits - 1, {0}, Running, {});
    assert {0} - {0} == {};
    assert {} + {r} == {r};
    hide Move;
    DoAllThree(c, s, OriginAnswers(0), Acquire(0), Finish(0, Success));
  }

  /** The state once the first request has been served and its write has landed. */
  function Filled(c: Config, r: Request): System
    requires Sanitized(RequestKey(r)).Some?
  {
    var e := Entry(c, r, 0);
    System(Tier(M.Stored([], RequestKey(r), e, c.l1Max), map[Collapse(RequestKey(r)) := Object(e.data, e.contentType)],
                multiset{}),
           c.permits, {}, map[0 := r], map[0 := Answered(Rendered(e.data, e.contentType))], {r})
  }

  function Keep(c: Config, r: Request): seq<Step> {
    [KeepResult(0, 0), LandWrite((RequestKey(r), Entry(c, r, 0)), true)]
  }

  /** The state once the first request has been served and its write is under way. */
  function Kept(c: Config, r: Request): System {
    var e := Entry(c, r, 0);
    System(Tier(M.Stored([], RequestKey(r), e, c.l1Max), map[], multiset{(RequestKey(r), e)}),
           c.permits, {}, map[0 := r], map[0 := Answered(Rendered(e.data, e.contentType))], {r})
  }

  lemma KeepStep(c: Config, r: Request)
    ensures Do(c, Alone(c, r, c.permits, {}, Done(Success), {r}), KeepResult(0, 0)) == Kept(c, r)
  {
    var e := Entry(c, r, 0);
    AloneMoves(c, r, c.permits, {}, Done(Success), {r}, Answered(Rendered(e.data, e.contentType)));
    hide RequestKey, Entry, M.Stored, Move;
    assert Written(EMPTY, RequestKey(r), e, c.l1Max).pending == multiset{(RequestKey(r), e)};
  }

  lemma LandStep(c: Config, r: Request)
    requires Sanitized(RequestKey(r)).Some?
    ensures Do(c, Kept(c, r), LandWrite((RequestKey(r), Entry(c, r, 0)), true)) == Filled(c, r)
  {
    hide RequestKey, Entry, Contains, Collapse, M.Stored;
    var e := Entry(c, r, 0);
    assert multiset{(RequestKey(r), e)} - multiset{(RequestKey(r), e)} == multiset{};
    assert StorePut(map[], RequestKey(r), e) == map[Collapse(RequestKey(r)) := Object(e.data, e.contentType)];
  }

  lemma KeepEnds(c: Config, r: Request)
    requires Sanitized(RequestKey(r)).Some?
    ensures DoAll(c, Alone(c, r, c.permits, {}, Done(Success), {r}), Keep(c, r)) == Filled(c, r)
  {
    KeepStep(c, r);
    LandStep(c, r);
    hide Do, RequestKey, Entry, Alone, Kept, Filled, Sanitized;
    assert Keep(c, r)[1..] == [LandWrite((RequestKey(r), Entry(c, r, 0)), true)];
    assert Keep(c, r)[1..][1..] == [];
    assert DoAll(c, Kept(c, r), Keep(c, r)[1..]) == Filled(c, r);
  }

  function Reread(q: Request): seq<Step> {
    [Arrive(1, q), LookInMemory(1), LookInStore(1, true, 0), PromoteHit(1)]
  }

  lemma SecondArrives(c: Config, s: System, q: Request)
    requires 1 !in s.phases && 1 !in s.requests
    ensures var t := Do(c, s, Arrive(1, q)); At(t, 1, Arrived) && t.requests[1] == q && t.tier == s.tier
  {}

  lemma MemoryStep(c: Config, s: System, id: nat)
    requires At(s, id, Arrived)
    ensures var t, found := Do(c, s, LookInMemory(id)), M.Lookup(s.tier.l1, RequestKey(s.requests[id]));
      && t.requests == s.requests && t.tier.l2 == s.tier.l2
      && At(t, id, if found.Some? then Answered(Cached(found.value.data, found.value.contentType)) else MemoryMiss)
  {
    hide RequestKey, M.Lookup, M.Touched;
  }

  lemma StoreStep(c: Config, s: System, id: nat, now: int)
    ensures var t := Do(c, s, LookInStore(id, true, now));
      && t.requests == s.requests && (!At(s, id, MemoryMiss) ==> t == s)
      && (At(s, id, MemoryMiss) && StoreGet(s.tier.l2, RequestKey(s.requests[id]), true, now).Some? ==>
            At(t, id, StoreHit(StoreGet(s.tier.l2, RequestKey(s.requests[id]), true, now).value)))
  {
    hide RequestKey, StoreGet;
  }

  lemma PromoteStep(c: Config, s: System, id: nat, e: CacheEntry)
    ensures var t := Do(c, s, PromoteHit(id));
      && t.requests == s.requests
      && (At(s, id, StoreHit(e)) ==> At(t, id, Answered(Cached(e.data, e.contentType))))
      && (forall response :: At(s, id, Answered(response)) ==> t == s)
  {
    hide RequestKey, Promote;
  }

  /** The store gives the entry back under every key that the rewriting maps to its object key. */
  lemma StoredRendition(c: Config, r: Request, q: Request)
    requires ShareObject(RequestKey(r), RequestKey(q))
    ensures StoreGet(Filled(c, r).tier.l2, RequestKey(q), true, 0) == Some(Entry(c, r, 0))
  {
    ConcreteTypeIsKept(c.Render(r).format);
    hide RequestKey, M.Stored, Collapse, Contains, OutputFormat.ContentType, DetectContentType;
  }

  /** The second request gets the rendition of the first one, from memory or from the store. */
  lemma RereadEnds(c: Config, r: Request, q: Request)
    requires ShareObject(RequestKey(r), RequestKey(q))
    ensures var s := DoAll(c, Filled(c, r), Reread(q));
      At(s, 1, Answered(Fresh(c, r))) && s.requests[1] == q
  {
    var s, e := Filled(c, r), Entry(c, r, 0);
    assert Cached(e.data, e.contentType) == Fresh(c, r);
    var s1 := Do(c, s, Arrive(1, q));
    assert At(s1, 1, Arrived) && s1.requests[1] == q && s1.tier == s.tier;
    SoleEntry(c, RequestKey(r), e, RequestKey(q));
    StoredRendition(c, r, q);
    hide Do, RequestKey, StoreGet, M.Stored, M.Lookup, Entry, Fresh, ShareObject, Sanitized;
    MemoryStep(c, s1, 1);
    var s2 := Do(c, s1, LookInMemory(1));
    StoreStep(c, s2, 1, 0);
    var s3 := Do(c, s2, LookInStore(1, true, 0));
    PromoteStep(c, s3, 1, e);
    hide Filled, At;
    assert Reread(q)[1..] == [LookInMemory(1), LookInStore(1, true, 0), PromoteHit(1)];
    DoAllThree(c, s1, LookInMemory(1), LookInStore(1, true, 0), PromoteHit(1));
  }

  lemma SoleEntry(c: Config, key: string, e: CacheEntry, other: string)
    ensures M.Lookup(M.Stored([], key, e, c.l1Max), other).Some? ==>
      M.Lookup(M.Stored([], key, e, c.l1Max), other).value == e
    ensures e.Size() <= c.l1Max ==> M.Lookup(M.Stored([], key, e, c.l1Max), key) == Some(e)
  {
    M.StoredFacts([], key, e, c.l1Max);
    M.LookupFinds(M.Stored([], key, e, c.l1Max), other);
    M.LookupFinds(M.Stored([], key, e, c.l1Max), key);
    hide M.Stored, M.Lookup;
  }

  function RereadInMemory(q: Request): seq<Step> {
    [Arrive(1, q), LookInMemory(1)]
  }

  /** Without the store: the second request finds the entry of its own key in memory. */
  lemma MemoryRereadEnds(c: Config, r: Request, q: Request)
    requires RequestKey(r) == RequestKey(q) && Entry(c, r, 0).Size() <= c.l1Max
    ensures var s := DoAll(c, Kept(c, r), RereadInMemory(q));
      At(s, 1, Answered(Fresh(c, r))) && s.requests[1] == q
  {
    hide Do, RequestKey, M.Stored, M.Lookup;
    var s, e := Kept(c, r), Entry(c, r, 0);
    assert Cached(e.data, e.contentType) == Fresh(c, r);
    var s1 := Do(c, s, Arrive(1, q));
    SecondArrives(c, s, q);
    SoleEntry(c, RequestKey(r), e, RequestKey(q));
    hide Entry, Fresh;
    MemoryStep(c, s1, 1);
    hide Kept, At;
    assert RereadInMemory(q)[1..] == [LookInMemory(1)] && [LookInMemory(1)][1..] == [];
    assert DoAll(c, s1, [LookInMemory(1)]) == Do(c, s1, LookInMemory(1));
  }

  /** A run in which the second request is answered with the rendition of the first one. */
  function Confusion(c: Config, r: Request, q: Request): seq<Step> {
    if ShareObject(RequestKey(r), RequestKey(q)) then Asked(r) + RENDER + Keep(c, r) + Reread(q)
    else Asked(r) + RENDER + [KeepResult(0, 0)] + RereadInMemory(q)
  }

  lemma ConfusionAsks(c: Config, r: Request, q: Request)
    ensures forall x :: x in Confusion(c, r, q) && x.Arrive? ==> x.request == r || x.request == q
  {
    hide RequestKey, Entry, ShareObject;
    assert forall x :: x in Asked(r) && x.Arrive? ==> x.request == r;
    assert forall x :: x in RENDER ==> !x.Arrive?;
    assert forall x :: x in Keep(c, r) ==> !x.Arrive?;
    assert forall x :: x in Reread(q) && x.Arrive? ==> x.request == q;
    assert forall x :: x in RereadInMemory(q) && x.Arrive? ==> x.request == q;
  }

  /** Steps in four parts, from the start. */
  lemma RunInParts(c: Config, a: seq<Step>, b: seq<Step>, d: seq<Step>, e: seq<Step>)
    ensures Run(c, a + b + d + e) == DoAll(c, DoAll(c, DoAll(c, DoAll(c, Init(c), a), b), d), e)
  {
    hide Do, DoAll, Run;
    DoAllAppend(c, Init(c), a + b + d, e);
    DoAllAppend(c, Init(c), a + b, d);
    DoAllAppend(c, Init(c), a, b);
    RunOfNothing(c);
    RunIsDoAll(c, [], a + b + d + e);
    assert [] + (a + b + d + e) == a + b + d + e;
  }

  /** Serving one request and rereading it as another gives the second one the rendition of the first. */
  lemma ConfusedRun(c: Config, r: Request, q: Request)
    requires c.permits > 0 && Reaches(c, r, RequestKey(q))
    ensures At(Run(c, Confusion(c, r, q)), 1, Answered(Fresh(c, r)))
    ensures Run(c, Confusion(c, r, q)).requests[1] == q
  {
    AskedEnds(c, r);
    RenderEnds(c, r);
    if ShareObject(RequestKey(r), RequestKey(q)) {
      KeepEnds(c, r);
      RereadEnds(c, r, q);
      hide Do, DoAll, Run, RequestKey, Alone, Filled, Fresh, Sanitized, ShareObject, Entry, At;
      hide Asked, Keep, Reread;
      RunInParts(c, Asked(r), RENDER, Keep(c, r), Reread(q));
    } else {
      KeptAlone(c, r);
      MemoryRereadEnds(c, r, q);
      hide Do, DoAll, Run, RequestKey, Alone, Kept, Fresh, Sanitized, ShareObject, Entry, At;
      hide Asked, RereadInMemory;
      RunInParts(c, Asked(r), RENDER, [KeepResult(0, 0)], RereadInMemory(q));
    }
  }

  lemma KeptAlone(c: Config, r: Request)
    ensures DoAll(c, Alone(c, r, c.permits, {}, Done(Success), {r}), [KeepResult(0, 0)]) == Kept(c, r)
  {
    KeepStep(c, r);
    hide Do, Alone, Kept;
    assert [KeepResult(0, 0)][1..] == [];
  }

  lemma RunOfNothing(c: Config)
    ensures Run(c, []) == Init(c)
  {}

  /**
    Cache transparency, exactly: for every class of requests, every answer from the cache, over every run of
    them, is the fresh one if and only if requests that reach each other's keys have the same rendition.
   */
  lemma TransparentExactly(c: Config, admitted: Request -> bool)
    requires c.permits > 0
    ensures (forall steps :: Admits(steps, admitted) ==> HitsFresh(c, Run(c, steps))) <==> KeysDecide(c, admitted)
  {
    hide Run, RequestKey, Reaches, Fresh, Confusion;
    if KeysDecide(c, admitted) {
      forall steps | Admits(steps, admitted) ensures HitsFresh(c, Run(c, steps)) {
        HitsAreFresh(c, steps, admitted);
      }
    }
    if forall steps :: Admits(steps, admitted) ==> HitsFresh(c, Run(c, steps)) {
      forall r, q | admitted(r) && admitted(q) && Reaches(c, r, RequestKey(q)) ensures Fresh(c, r) == Fresh(c, q) {
        ConfusedRun(c, r, q);
        ConfusionAsks(c, r, q);
        assert Admits(Confusion(c, r, q), admitted);
        assert HitsFresh(c, Run(c, Confusion(c, r, q)));
      }
    }
  }
}
