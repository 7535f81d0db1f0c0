/**
 What it means for the monitor to accept: the conversation about a request, by positions in the
 trace.
 */
module ProtocolConversation {
  import opened Protocol
  import opened ProtocolReplies

  predicate IsCode(e: Event, id: nat) { e.CodeToMax? && e.cell == id }

  predicate IsReply(e: Event, id: nat) { e.ExecuteReply? && e.id == id }

  predicate IsInput(e: Event, id: nat) { e.ExecuteInput? && e.parent == Request(id) }

  /** A result or an error on behalf of cell `id`. */
  predicate IsVerdict(e: Event, id: nat) { IsOutputOf(e, id) && !e.Stream? }

  /** Where the milestones of request `id` stand in the trace; -1 for one not reached. Each milestone
      occurs exactly once; the input is announced between busy and the code, all output lies between
      the code and the reply, a result or an error is the last of it and is what the reply reports, and
      free-standing text comes after the idle status exactly when it was flushed while no cell was
      pending. */
  ghost predicate Conversation(trace: seq<Event>, id: nat, busy: int, code: int, verdict: int, reply: int, idle: int) {
    && OnceEach(trace, id, busy, code, verdict, reply, idle)
    && OutputBetween(trace, id, busy, code, verdict, reply)
    && FreeTextBetween(trace, id, busy, idle)
    && (0 <= verdict < reply < |trace| ==> trace[reply].reply == VerdictOf(trace[verdict]))
  }

  ghost predicate OnceEach(trace: seq<Event>, id: nat, busy: int, code: int, verdict: int, reply: int, idle: int) {
    && (forall i :: 0 <= i < |trace| ==> (trace[i] == Status(Request(id), true) <==> i == busy))
    && (forall i :: 0 <= i < |trace| ==> (IsCode(trace[i], id) <==> i == code))
    && (forall i :: 0 <= i < |trace| ==> (IsVerdict(trace[i], id) <==> i == verdict))
    && (forall i :: 0 <= i < |trace| ==> (IsReply(trace[i], id) <==> i == reply))
    && (forall i :: 0 <= i < |trace| ==> (trace[i] == Status(Request(id), false) <==> i == idle))
  }

  ghost predicate OutputBetween(trace: seq<Event>, id: nat, busy: int, code: int, verdict: int, reply: int) {
    && (forall i :: 0 <= i < |trace| && IsInput(trace[i], id) ==> 0 <= busy < i && (code >= 0 ==> i < code))
    && (forall i :: 0 <= i < |trace| && IsOutputOf(trace[i], id) ==>
          0 <= code < i && (verdict >= 0 ==> i <= verdict) && (reply >= 0 ==> i < reply))
  }

  ghost predicate FreeTextBetween(trace: seq<Event>, id: nat, busy: int, idle: int) {
    forall i :: 0 <= i < |trace| && IsFreeFor(trace[i], id) ==>
      0 <= busy < i && (0 <= idle < i <==> trace[i].source.front == -1)
  }

  /** The milestones reached so far, in their order. */
  ghost predicate Milestones(trace: seq<Event>, id: nat, ph: Phase, busy: int, code: int, verdict: int,
    reply: int, idle: int) {
    var n := |trace|;
    && -1 <= busy < n && -1 <= code < n && -1 <= verdict < n && -1 <= reply < n && -1 <= idle < n
    && (busy == -1 <==> ph == Unseen)
    && (code == -1 <==> ph == Unseen || ph == Busy || ph == Announced)
    && (verdict >= 0 <==> ph.Settled? || ((ph.Replied? || ph.Closed?) && ph.told))
    && (reply >= 0 <==> ph.Replied? || ph.Closed?)
    && (idle >= 0 <==> ph.Closed?)
    && (code >= 0 ==> 0 <= busy < code) && (verdict >= 0 ==> 0 <= code < verdict)
    && (reply >= 0 ==> code < reply && verdict < reply && 0 <= code) && (idle >= 0 ==> 0 <= reply < idle)
    && (ph.Settled? ==> IsVerdict(trace[verdict], id) && ph.reply == VerdictOf(trace[verdict]))
    && (reply >= 0 ==> IsReply(trace[reply], id) && ph.reply == trace[reply].reply)
  }

  /** Where a milestone stands after one more event. */
  function Mark(old': int, now: bool, n: nat): int { if now then n else old' }

  lemma ConversationStep(trace: seq<Event>, e: Event, id: nat, ph: Phase, busy: int, code: int, verdict: int,
    reply: int, idle: int)
    returns (busy': int, code': int, verdict': int, reply': int, idle': int)
    requires Conversation(trace, id, busy, code, verdict, reply, idle)
    requires Milestones(trace, id, ph, busy, code, verdict, reply, idle)
    requires Observe(ph, e, id) != Broken && ph != Broken
    ensures Conversation(trace + [e], id, busy', code', verdict', reply', idle')
    ensures Milestones(trace + [e], id, Observe(ph, e, id), busy', code', verdict', reply', idle')
  {
    hide Conversation, Milestones, Observe, IsVerdict;
    var n := |trace|;
    busy' := Mark(busy, e == Status(Request(id), true), n);
    code' := Mark(code, IsCode(e, id), n);
    verdict' := Mark(verdict, IsVerdict(e, id), n);
    reply' := Mark(reply, IsReply(e, id), n);
    idle' := Mark(idle, e == Status(Request(id), false), n);
    MilestonesStep(trace, e, id, ph, busy, code, verdict, reply, idle);
    OrderStep(trace, e, id, ph, busy, code, verdict, reply, idle);
  }

  lemma MilestonesStep(trace: seq<Event>, e: Event, id: nat, ph: Phase, busy: int, code: int, verdict: int,
    reply: int, idle: int)
    requires Milestones(trace, id, ph, busy, code, verdict, reply, idle) && Observe(ph, e, id) != Broken && ph != Broken
    ensures Milestones(trace + [e], id, Observe(ph, e, id),
                       Mark(busy, e == Status(Request(id), true), |trace|), Mark(code, IsCode(e, id), |trace|),
                       Mark(verdict, IsVerdict(e, id), |trace|), Mark(reply, IsReply(e, id), |trace|),
                       Mark(idle, e == Status(Request(id), false), |trace|))
  {}

  lemma OrderStep(trace: seq<Event>, e: Event, id: nat, ph: Phase, busy: int, code: int, verdict: int,
    reply: int, idle: int)
    requires Conversation(trace, id, busy, code, verdict, reply, idle)
    requires Milestones(trace, id, ph, busy, code, verdict, reply, idle)
    requires Observe(ph, e, id) != Broken && ph != Broken
    ensures Conversation(trace + [e], id,
                         Mark(busy, e == Status(Request(id), true), |trace|), Mark(code, IsCode(e, id), |trace|),
                         Mark(verdict, IsVerdict(e, id), |trace|), Mark(reply, IsReply(e, id), |trace|),
                         Mark(idle, e == Status(Request(id), false), |trace|))
  {
    assert forall i :: 0 <= i < |trace| ==> (trace + [e])[i] == trace[i];
    OnceStep(trace, e, id, ph, busy, code, verdict, reply, idle);
    OutputStep(trace, e, id, ph, busy, code, verdict, reply, idle);
    FreeTextStep(trace, e, id, ph, busy, code, verdict, reply, idle);
    hide OnceEach, OutputBetween, FreeTextBetween;
  }

  lemma OnceStep(trace: seq<Event>, e: Event, id: nat, ph: Phase, busy: int, code: int, verdict: int,
    reply: int, idle: int)
    requires OnceEach(trace, id, busy, code, verdict, reply, idle)
    requires Milestones(trace, id, ph, busy, code, verdict, reply, idle)
    requires Observe(ph, e, id) != Broken && ph != Broken
    ensures OnceEach(trace + [e], id,
                     Mark(busy, e == Status(Request(id), true), |trace|), Mark(code, IsCode(e, id), |trace|),
                     Mark(verdict, IsVerdict(e, id), |trace|), Mark(reply, IsReply(e, id), |trace|),
                     Mark(idle, e == Status(Request(id), false), |trace|))
  {}

  lemma OutputStep(trace: seq<Event>, e: Event, id: nat, ph: Phase, busy: int, code: int, verdict: int,
    reply: int, idle: int)
    requires OutputBetween(trace, id, busy, code, verdict, reply)
    requires Milestones(trace, id, ph, busy, code, verdict, reply, idle)
    requires Observe(ph, e, id) != Broken && ph != Broken
    ensures OutputBetween(trace + [e], id,
                          Mark(busy, e == Status(Request(id), true), |trace|), Mark(code, IsCode(e, id), |trace|),
                          Mark(verdict, IsVerdict(e, id), |trace|), Mark(reply, IsReply(e, id), |trace|))
  {}

  lemma FreeTextStep(trace: seq<Event>, e: Event, id: nat, ph: Phase, busy: int, code: int, verdict: int,
    reply: int, idle: int)
    requires FreeTextBetween(trace, id, busy, idle) && Milestones(trace, id, ph, busy, code, verdict, reply, idle)
    requires Observe(ph, e, id) != Broken && ph != Broken
    ensures FreeTextBetween(trace + [e], id,
                            Mark(busy, e == Status(Request(id), true), |trace|),
                            Mark(idle, e == Status(Request(id), false), |trace|))
  {}

  lemma {:induction false} Conversed(trace: seq<Event>, id: nat)
    returns (busy: int, code: int, verdict: int, reply: int, idle: int)
    requires Monitor(trace, id) != Broken
    ensures Conversation(trace, id, busy, code, verdict, reply, idle)
    ensures Milestones(trace, id, Monitor(trace, id), busy, code, verdict, reply, idle)
  {
    if trace == [] {
      busy, code, verdict, reply, idle := -1, -1, -1, -1, -1;
    } else {
      var k := |trace| - 1;
      assert trace == trace[..k] + [trace[k]];
      assert Monitor(trace, id) == Observe(Monitor(trace[..k], id), trace[k], id);
      assert Monitor(trace[..k], id) != Broken by { BrokenStays(trace[k], id); }
      hide Monitor, Observe, Conversation, Milestones;
      busy, code, verdict, reply, idle := Conversed(trace[..k], id);
      busy, code, verdict, reply, idle :=
        ConversationStep(trace[..k], trace[k], id, Monitor(trace[..k], id), busy, code, verdict, reply, idle);
    }
  }

  lemma BrokenStays(e: Event, id: nat)
    ensures Observe(Broken, e, id) == Broken
  {}
}
