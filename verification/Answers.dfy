/** What a request is answered with once its transform has ended, and what the cache steps leave behind. */
module Answers {
  import opened Text
  import opened Params
  import opened Negotiate
  import opened ObjectKeys
  import opened TieredCache
  import opened Server
  import M = MemoryCache

  // ---------------------------------------------------------------------------
  // After a transform
  // ---------------------------------------------------------------------------

  /** The answer that is due after a transform with this outcome. */
  function Due(c: Config, r: Request, outcome: Outcome): Response {
    if outcome == Success then Rendered(c.Render(r).data, c.Render(r).format.ContentType())
    else FailedTransformResponse(c, r, outcome)
  }

  /** The transform has ended: the request waits for its answer, has it, or has gone away. */
  predicate Ended(c: Config, s: System, id: nat, r: Request, outcome: Outcome) {
    && id in s.phases && id in s.requests && s.requests[id] == r
    && (s.phases[id] == Done(outcome) || s.phases[id] == Abandoned || s.phases[id] == Answered(Due(c, r, outcome)))
  }

  lemma EndedStep(c: Config, s: System, step: Step, id: nat, r: Request, outcome: Outcome)
    requires Ended(c, s, id, r, outcome)
    ensures Ended(c, Do(c, s, step), id, r, outcome)
  {
    hide RequestKey, ReadMemory, StoreGet, Promote, Land, StoreDelete, FailedTransformResponse, Written, M.Without;
    hide Config.Render;
  }

  lemma {:induction false} EndedStays(c: Config, front: seq<Step>, steps: seq<Step>, id: nat, r: Request,
                                      outcome: Outcome)
    requires Ended(c, Run(c, front), id, r, outcome)
    ensures Ended(c, Run(c, front + steps), id, r, outcome)
    decreases |steps|
  {
    hide Ended, Do;
    if steps == [] {
      assert front + steps == front;
    } else {
      var n := |steps| - 1;
      EndedStays(c, front, steps[..n], id, r, outcome);
      assert front + steps == (front + steps[..n]) + [steps[n]];
      assert (front + steps)[..|front + steps| - 1] == front + steps[..n];
      EndedStep(c, Run(c, front + steps[..n]), steps[n], id, r, outcome);
    }
  }

  /** The outcome of a request's transform, when the run has seen it end before the request went away. */
  ghost predicate TransformEnded(c: Config, steps: seq<Step>, id: nat, outcome: Outcome) {
    exists n :: 0 <= n <= |steps| && At(Run(c, steps[..n]), id, Done(outcome))
  }

  lemma AnsweredAsDue(c: Config, steps: seq<Step>, id: nat, outcome: Outcome)
    requires TransformEnded(c, steps, id, outcome)
    ensures var s := Run(c, steps); id in s.phases && id in s.requests
    ensures var s := Run(c, steps); s.phases[id].Answered? ==> s.phases[id].response == Due(c, s.requests[id], outcome)
  {
    hide Run, Due;
    var n :| 0 <= n <= |steps| && At(Run(c, steps[..n]), id, Done(outcome));
    assert steps == steps[..n] + steps[n..];
    EndedStays(c, steps[..n], steps[n..], id, Run(c, steps[..n]).requests[id], outcome);
  }

  /**
    Over every run, a request whose transform failed gets a redirect exactly when it asked for one, its origin has
    an address, and neither the mode nor the format forbids it; the origin's bytes exactly when nothing forbids
    them and there is no redirect; and otherwise the envelope, with 422 for failures of the source or the decoder.
   */
  lemma FailureAnswered(c: Config, steps: seq<Step>, id: nat, outcome: Outcome)
    requires TransformEnded(c, steps, id, outcome) && outcome != Success
    requires id in Run(c, steps).phases && Run(c, steps).phases[id].Answered?
    ensures id in Run(c, steps).requests
    ensures var r, answer := Run(c, steps).requests[id], Run(c, steps).phases[id].response;
      forall location :: answer == RedirectTo(location) <==>
        !c.failClosed && r.params.format != Some(Thumbhash) && r.params.onerror == Some(Redirect)
        && c.redirect(r) == Some(location)
    ensures var r, answer := Run(c, steps).requests[id], Run(c, steps).phases[id].response;
      answer == RawBytes <==>
        !c.failClosed && r.params.format != Some(Thumbhash)
        && (r.params.onerror != Some(Redirect) || c.redirect(r).None?)
    ensures var r, answer := Run(c, steps).requests[id], Run(c, steps).phases[id].response;
      forall status, noStore :: answer == Envelope(status, noStore) <==>
        (c.failClosed || r.params.format == Some(Thumbhash)) && noStore == c.failClosed
        && status == match outcome {
             case Failed(ExceedsMaxPixels) | Failed(Vips) => 422
             case _ => 500
           }
  {
    AnsweredAsDue(c, steps, id, outcome);
    hide Run, TransformEnded;
  }

  /** And a request whose transform succeeded gets its own rendition. */
  lemma SuccessAnswered(c: Config, steps: seq<Step>, id: nat)
    requires TransformEnded(c, steps, id, Success)
    requires id in Run(c, steps).phases && Run(c, steps).phases[id].Answered?
    ensures id in Run(c, steps).requests
    ensures var r := Run(c, steps).requests[id];
      Run(c, steps).phases[id].response == Rendered(c.data(r), c.Render(r).format.ContentType())
  {
    AnsweredAsDue(c, steps, id, Success);
    hide Run, TransformEnded;
  }

  /** One request whose transform ends with this outcome, and its answer. */
  function Failing(r: Request, outcome: Outcome): seq<Step> {
    Asked(r) + [OriginAnswers(0), Acquire(0), Finish(0, outcome)] + [AnswerFailure(0)]
  }

  lemma FailEnds(c: Config, r: Request, outcome: Outcome)
    requires c.permits > 0 && outcome != Success
    ensures DoAll(c, Alone(c, r, c.permits, {}, Missed, {}), [OriginAnswers(0), Acquire(0), Finish(0, outcome)])
         == Alone(c, r, c.permits, {}, Done(outcome), {})
  {
    hide RequestKey;
    AloneMoves(c, r, c.permits, {}, Missed, {}, Fetched);
    AloneMoves(c, r, c.permits, {}, Fetched, {}, Running);
    AloneMoves(c, r, c.permits, {}, Running, {}, Done(outcome));
    var s := Alone(c, r, c.permits, {}, Missed, {});
    assert Do(c, s, OriginAnswers(0)) == Alone(c, r, c.permits, {}, Fetched, {});
    assert Do(c, Alone(c, r, c.permits, {}, Fetched, {}), Acquire(0)) == Alone(c, r, c.permits - 1, {0}, Running, {});
    assert {0} - {0} == {};
    hide Move;
    DoAllThree(c, s, OriginAnswers(0), Acquire(0), Finish(0, outcome));
  }

  lemma AnswerEnds(c: Config, r: Request, outcome: Outcome)
    requires outcome != Success
    ensures At(DoAll(c, Alone(c, r, c.permits, {}, Done(outcome), {}), [AnswerFailure(0)]), 0,
               Answered(FailedTransformResponse(c, r, outcome)))
  {
    hide FailedTransformResponse;
    assert [AnswerFailure(0)][1..] == [];
    var s := Alone(c, r, c.permits, {}, Done(outcome), {});
    assert DoAll(c, s, [AnswerFailure(0)]) == Do(c, s, AnswerFailure(0));
  }

  /** Such answers are given: a request for a redirect whose transform fails gets it. */
  lemma RedirectGiven(c: Config, r: Request, outcome: Outcome, location: string)
    requires c.permits > 0 && outcome != Success && !c.failClosed && r.params.format != Some(Thumbhash)
    requires r.params.onerror == Some(Redirect) && c.redirect(r) == Some(location)
    ensures At(Run(c, Failing(r, outcome)), 0, Answered(RedirectTo(location)))
  {
    AskedEnds(c, r);
    FailEnds(c, r, outcome);
    AnswerEnds(c, r, outcome);
    assert FailedTransformResponse(c, r, outcome) == RedirectTo(location);
    hide FailedTransformResponse, Do, DoAll, Run, Alone, At, Asked;
    var fail := [OriginAnswers(0), Acquire(0), Finish(0, outcome)];
    RunInParts(c, Asked(r), fail, [AnswerFailure(0)], []);
    assert Asked(r) + fail + [AnswerFailure(0)] + [] == Failing(r, outcome);
    NothingDone(c, DoAll(c, DoAll(c, DoAll(c, Init(c), Asked(r)), fail), [AnswerFailure(0)]));
  }

  lemma NothingDone(c: Config, s: System)
    ensures DoAll(c, s, []) == s
  {}

  /** The type of a rendition: that of an explicit format, else of the negotiated one; `json` and animations apart. */
  lemma RenditionFormat(c: Config, r: Request)
    requires !c.source(r).animatable && r.params.format != Some(Json)
    ensures var f, fast := c.Render(r).format, r.params.compression == Some(Fast);
      var chosen := if r.params.format.Some? && r.params.format != Some(Auto) then r.params.format.value
                    else NegotiateFormat(r.header, c.source(r).hasAlpha, None);
      f == if fast && (chosen == Avif || chosen == Webp) then Jpeg else chosen
    ensures c.Render(r).data == c.data(r)
  {
    hide Accepted;
  }

  /** A request that misses both levels waits for its origin and then for a permit, and is told when it gets none. */
  lemma MissContinues(c: Config, steps: seq<Step>, id: nat)
    ensures At(Run(c, steps), id, Missed) ==>
      && At(Run(c, steps + [OriginFails(id)]), id, Answered(OriginFailed))
      && At(Run(c, steps + [OriginAnswers(id)]), id, Fetched)
    ensures At(Run(c, steps), id, Fetched) ==>
      At(Run(c, steps + [Acquire(id)]), id, if Run(c, steps).permits == 0 then Answered(Busy) else Running)
  {
    RunAgain(c, steps, OriginFails(id));
    RunAgain(c, steps, OriginAnswers(id));
    RunAgain(c, steps, Acquire(id));
    hide Run;
  }

  /** A task that ends gives its permit back, whether its client still waits or has gone away. */
  lemma TaskReleases(c: Config, steps: seq<Step>, id: nat, outcome: Outcome)
    requires id in Run(c, steps).tasks
    ensures Run(c, steps + [Finish(id, outcome)]).permits == Run(c, steps).permits + 1
    ensures Run(c, steps + [Finish(id, outcome)]).tasks == Run(c, steps).tasks - {id}
  {
    RunKeepsPermits(c, steps);
    RunAgain(c, steps, Finish(id, outcome));
    hide Run;
  }

  // ---------------------------------------------------------------------------
  // What the cache steps leave behind
  // ---------------------------------------------------------------------------

  lemma RunAgain(c: Config, steps: seq<Step>, step: Step)
    ensures Run(c, steps + [step]) == Do(c, Run(c, steps), step)
  {
    hide Do;
    assert (steps + [step])[..|steps|] == steps;
  }

  lemma HeldEntry(slots: M.Slots, key: string, e: M.CacheEntry, max: nat)
    requires M.DistinctKeys(slots) && e.Size() <= max
    ensures M.Lookup(M.Stored(slots, key, e, max), key) == Some(e)
  {
    M.StoredFacts(slots, key, e, max);
    M.LookupFinds(M.Stored(slots, key, e, max), key);
    hide M.Stored, M.Lookup;
  }

  /** A promoted entry is in memory afterwards, when it fits. */
  lemma PromotedIsHeld(c: Config, steps: seq<Step>, id: nat, e: M.CacheEntry)
    requires At(Run(c, steps), id, StoreHit(e)) && e.Size() <= c.l1Max
    ensures id in Run(c, steps).requests
    ensures M.Lookup(Run(c, steps + [PromoteHit(id)]).tier.l1, RequestKey(Run(c, steps).requests[id])) == Some(e)
  {
    RunIsSound(c, steps);
    RunAgain(c, steps, PromoteHit(id));
    hide Run, RequestKey, M.Stored, M.Lookup, M.DistinctKeys, Readable, Writable, Storable;
    HeldEntry(Run(c, steps).tier.l1, RequestKey(Run(c, steps).requests[id]), e, c.l1Max);
  }

  /** A kept result is in memory afterwards, when it fits, and one store write of it is under way. */
  lemma KeptIsHeld(c: Config, steps: seq<Step>, id: nat, now: int)
    requires At(Run(c, steps), id, Done(Success))
    ensures id in Run(c, steps).requests
    ensures var s, t := Run(c, steps), Run(c, steps + [KeepResult(id, now)]);
      var key, e := RequestKey(s.requests[id]), Entry(c, s.requests[id], now);
      && t.tier.pending == s.tier.pending + multiset{(key, e)}
      && (e.Size() <= c.l1Max ==> M.Lookup(t.tier.l1, key) == Some(e))
  {
    RunIsSound(c, steps);
    RunAgain(c, steps, KeepResult(id, now));
    hide Run, RequestKey, Entry, M.Stored, M.Lookup, M.DistinctKeys, Readable, Writable, Storable;
    var s := Run(c, steps);
    var key, e := RequestKey(s.requests[id]), Entry(c, s.requests[id], now);
    if e.Size() <= c.l1Max { HeldEntry(s.tier.l1, key, e, c.l1Max); }
  }

  /** A hit in memory becomes the most recently used entry. */
  lemma HitIsMostRecent(c: Config, steps: seq<Step>, id: nat)
    requires At(Run(c, steps), id, Arrived)
    ensures id in Run(c, steps).requests
    ensures var s, t := Run(c, steps), Run(c, steps + [LookInMemory(id)]);
      var key := RequestKey(s.requests[id]);
      var found := M.Lookup(s.tier.l1, key);
      if found.Some? then t.tier.l1 != [] && t.tier.l1[|t.tier.l1| - 1] == (key, found.value)
      else t.tier.l1 == s.tier.l1
  {
    RunAgain(c, steps, LookInMemory(id));
    hide Run, RequestKey, M.Lookup, M.Without;
  }

  /** Deletes delete, and a clear clears. */
  lemma DeletedIsGone(c: Config, steps: seq<Step>, key: string, reachable: bool, now: int)
    ensures M.Lookup(Run(c, steps + [DeleteInMemory(key)]).tier.l1, key).None?
    ensures StoreGet(Run(c, steps + [DeleteInStore(key)]).tier.l2, key, reachable, now).None?
    ensures Run(c, steps + [ClearMemory]).tier.l1 == []
  {
    RunIsSound(c, steps);
    RunAgain(c, steps, DeleteInMemory(key));
    RunAgain(c, steps, DeleteInStore(key));
    RunAgain(c, steps, ClearMemory);
    hide Run, Sanitized, Readable, Writable, Storable, FromObject;
    var l1 := Run(c, steps).tier.l1;
    M.WithoutFacts(l1, key);
    M.LookupFinds(M.Without(l1, key), key);
    hide M.Without, M.Lookup, M.DistinctKeys;
  }
}
