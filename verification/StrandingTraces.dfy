/**
 Every execution of the system: nothing is ever stranded exactly when each write that is half of one met its
 safeguard in the state in which it landed.
 */
module StrandingTraces {
  import opened Wrappers
  import opened Workflow
  import opened EventLog
  import opened Fences
  import opened Approvals
  import opened Guard
  import opened RunStore
  import opened StoreHistory
  import opened LogEffects
  import opened Stranding
  import opened HalfWrites

  /** Every legal write: a whole one strands nothing, and half of one strands nothing exactly when its
      safeguard holds. */
  lemma StepStrandsNothingIff(cfg: Config, s: Store, a: Action)
    requires WellFormed(s) && NothingStranded(s) && Legal(cfg, s, a)
    ensures NothingStranded(Apply(s, a)) <==> (SplitWrite(a) ==> Safeguard(s, a))
  {
    if SplitWrite(a) {
      HalfWriteStrandsNothingIff(s, a);
    } else {
      WholeStepStrandsNothing(cfg, s, a);
    }
  }

  /** Every half write met its safeguard in the state in which it landed. */
  ghost predicate Safeguarded(s: Store, acts: seq<Action>)
    decreases |acts|
  {
    |acts| == 0 || ((SplitWrite(acts[0]) ==> Safeguard(s, acts[0])) && Safeguarded(Apply(s, acts[0]), acts[1..]))
  }

  /** Nothing is stranded in any state the execution passes through. */
  ghost predicate NeverStranded(s: Store, acts: seq<Action>)
    decreases |acts|
  {
    NothingStranded(s) && (|acts| == 0 || NeverStranded(Apply(s, acts[0]), acts[1..]))
  }

  /** Over any execution, nothing is ever stranded exactly when every half write met its safeguard. */
  lemma {:induction false} TraceStrandsNothingIff(cfg: Config, s: Store, acts: seq<Action>)
    requires WellFormed(s) && NothingStranded(s) && ValidTrace(cfg, s, acts)
    ensures NeverStranded(s, acts) <==> Safeguarded(s, acts)
    decreases |acts|
  {
    if |acts| > 0 {
      var t := Apply(s, acts[0]);
      ApplyExtends(cfg, s, acts[0]);
      StepStrandsNothingIff(cfg, s, acts[0]);
      if NothingStranded(t) {
        TraceStrandsNothingIff(cfg, t, acts[1..]);
      } else {
        assert !NeverStranded(t, acts[1..]);
      }
    }
  }

  lemma {:induction false} NeverStrandedAtTheEnd(s: Store, acts: seq<Action>)
    requires NeverStranded(s, acts)
    ensures NothingStranded(After(s, acts))
    decreases |acts|
  {
    if |acts| > 0 {
      NeverStrandedAtTheEnd(Apply(s, acts[0]), acts[1..]);
    }
  }

  /** An execution without half writes needs no safeguard. */
  lemma {:induction false} WholeWritesAreSafeguarded(s: Store, acts: seq<Action>)
    requires WholeWrites(acts)
    ensures Safeguarded(s, acts)
    decreases |acts|
  {
    if |acts| > 0 {
      WholeWritesAreSafeguarded(Apply(s, acts[0]), acts[1..]);
    }
  }

  /** From the empty store, whatever was interleaved and wherever the system stopped: a scheduled,
      unfinished node of a live run is waiting in the queue, leased by a worker whose result would be
      taken, waiting on a request recorded in its run's log and still open (or on the failure its refusal
      brings), or it is one whose dispatch the scheduler had begun and not finished. */
  lemma NoStrandedNode(cfg: Config, acts: seq<Action>, r: RunId, n: NodeId)
    requires ValidTrace(cfg, EmptyStore, acts) && Safeguarded(EmptyStore, acts)
    requires var s := After(EmptyStore, acts); LiveRun(s, r) && Scheduled(s, r, n)
    ensures var s := After(EmptyStore, acts);
            var log := LogOf(s, r);
            || (r, n) in s.dispatching
            || (exists i | i in s.items :: Carries(s, i, r, n))
            || (&& Withheld(s, r, n)
                && exists k | 0 <= k < |log| :: log[k].kind.ToolApprovalRequired? && log[k].kind.node == n)
  {
    TraceStrandsNothingIff(cfg, EmptyStore, acts);
    NeverStrandedAtTheEnd(EmptyStore, acts);
    var s := After(EmptyStore, acts);
    assert Kept(s, r, n);
    if Withheld(s, r, n) {
      WithheldNamesARequest(LogOf(s, r), n);
    }
  }
}
