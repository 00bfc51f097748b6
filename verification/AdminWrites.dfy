/**
 Administrative operations read the card twice and write it in a third transaction, while workers go on.

 Such an operation is atomic on every interleaving exactly when the card was neither READY nor RUNNING at
 the first read; otherwise some interleaving loses a worker's step.
 */
module AdminWrites {
  import opened Wrappers
  import opened Text
  import opened Cards
  import opened CardBoard
  import opened LeaseProtocol

  /** A run from the first read of an operation to its write. */
  ghost predicate IsAdminRun(states: seq<Sys>, events: seq<Event>, lease: nat, id: CardId, op: AdminOp) {
    && Behaviour(states, events, lease)
    && |events| >= 2 && events[0] == AdminRead(id, op) && events[|events| - 1] == AdminWrite
    && forall i :: 0 <= i < |events| - 1 ==> !events[i].AdminWrite?
  }

  /** The last step has the effect of the whole operation on the card as it is at that moment. */
  ghost predicate WritesAtomically(states: seq<Sys>, id: CardId, op: AdminOp)
    requires |states| >= 2
  {
    var before := states[|states| - 2].table;
    id in before && states[|states| - 1].table == before[id := AdminResult(before[id], op)]
  }

  /** Whatever workers do in between, the operation that is about to start is atomic. */
  ghost predicate IsAlwaysAtomic(s: Sys, id: CardId, op: AdminOp, lease: nat) {
    forall states, events :: IsAdminRun(states, events, lease, id, op) && states[0] == s ==>
      WritesAtomically(states, id, op)
  }

  predicate IsAtWork(card: Card) {
    card.status == Ready || card.status == Running
  }

  // ---------------------------------------------------------------- no worker, no interference

  /** Between the reads and the write: the card is still the one that was read. */
  ghost predicate IsUndisturbed(s: Sys, id: CardId, card: Card, op: AdminOp) {
    && id in s.table && s.table[id] == card
    && (s.lessee == Prepared(id, AdminResult(card, op)) || s.lessee == Writing(AdminResult(card, op)))
  }

  lemma UndisturbedStep(s: Sys, e: Event, lease: nat, id: CardId, card: Card, op: AdminOp)
    requires Inv(s) && Enabled(s, e) && !e.AdminWrite? && IsUndisturbed(s, id, card, op) && !IsAtWork(card)
    ensures IsUndisturbed(Next(s, e, lease), id, card, op)
  {
    if IsWorkerEvent(e) && WorkerOutcome(s, e, lease).Ok? {
      WorkerStepIsLocal(s, e, lease);
    }
  }

  lemma {:induction false} StaysUndisturbed(states: seq<Sys>, events: seq<Event>, lease: nat, id: CardId,
                                            op: AdminOp, n: nat)
    requires IsAdminRun(states, events, lease, id, op) && Inv(states[0]) && 1 <= n < |events|
    requires id in states[0].table && !IsAtWork(states[0].table[id])
    ensures IsUndisturbed(states[n], id, states[0].table[id], op)
    decreases n
  {
    var card := states[0].table[id];
    assert Enabled(states[0], events[0]) && states[1] == Next(states[0], events[0], lease);
    if n > 1 {
      StaysUndisturbed(states, events, lease, id, op, n - 1);
      BehaviourKeepsInv(states, events, lease, n - 1);
      UndisturbedStep(states[n - 1], events[n - 1], lease, id, card, op);
    }
  }

  /** An operation on a card that no worker can have is atomic. */
  lemma IdleCardIsSafe(states: seq<Sys>, events: seq<Event>, lease: nat, id: CardId, op: AdminOp)
    requires IsAdminRun(states, events, lease, id, op) && Inv(states[0])
    requires id in states[0].table && !IsAtWork(states[0].table[id])
    ensures WritesAtomically(states, id, op)
  {
    var last := |events| - 1;
    StaysUndisturbed(states, events, lease, id, op, last);
    assert Enabled(states[last], events[last]) && states[last + 1] == Next(states[last], events[last], lease);
    assert states[0].table[id].id == id;
  }

  // ---------------------------------------------------------------- an interleaving that is lost

  lemma Extends(states: seq<Sys>, events: seq<Event>, e: Event, lease: nat)
    requires Behaviour(states, events, lease) && Enabled(states[|events|], e)
    ensures Behaviour(states + [Next(states[|events|], e, lease)], events + [e], lease)
  {
    hide Next;
    hide Enabled;
  }

  /** A run of worker steps after which the planned metadata is no longer what the operation gives. */
  ghost predicate Disturbs(s: Sys, states: seq<Sys>, events: seq<Event>, lease: nat, id: CardId, op: AdminOp,
                           planned: Card)
  {
    && Behaviour(states, events, lease) && states[0] == s
    && (forall i :: 0 <= i < |events| ==> !events[i].AdminWrite?)
    && var after := states[|events|];
       && after.lessee == s.lessee && id in after.table && after.table[id].id == id
       && AdminResult(after.table[id], op).metadata != planned.metadata
  }

  lemma {:induction false} FreshToken(issued: set<string>) returns (token: string)
    ensures token != "" && token !in issued && forall x :: x in issued ==> |x| < |token|
    decreases |issued|
  {
    if issued == {} {
      token := "t";
    } else {
      var x :| x in issued;
      var shorter := FreshToken(issued - {x});
      token := shorter + x;
      if x == "" {
        assert token == shorter;
      }
      token := token + "t";
    }
  }

  /** A cancellation can be told apart from the blocker that is planned. */
  lemma CancelDisturbs(s: Sys, id: CardId, op: AdminOp, planned: Card, lease: nat)
    returns (states: seq<Sys>, events: seq<Event>)
    requires Inv(s) && id in s.table && s.table[id].status == Running && !op.AdminUnblock?
    ensures Disturbs(s, states, events, lease, id, op, planned)
  {
    var reason := if planned.metadata.protocolDetail == "CANCELLED: x" then "y" else "x";
    assert "CANCELLED: x"[11] == 'x' && "CANCELLED: y"[11] == 'y';
    var e := CancelEvent(id, "o", reason);
    assert Strip("o") == "o" && Strip(reason) == reason;
    var after := Next(s, e, lease);
    assert after.table[id] == CancelledBy(s.table[id], s.table[id].metadata.claim.value, reason);
    assert "CANCELLED: " + reason != planned.metadata.protocolDetail by {
      assert "CANCELLED: " + "x" == "CANCELLED: x" && "CANCELLED: " + "y" == "CANCELLED: y";
    }
    states, events := [s] + [after], [] + [e];
    Extends([s], [], e, lease);
  }

  /** A failure can be told apart, because unblocking keeps the failure counter. */
  lemma ExpiryDisturbs(s: Sys, id: CardId, planned: Card, lease: nat) returns (states: seq<Sys>, events: seq<Event>)
    requires Inv(s) && id in s.table && s.table[id].status == Running
    requires s.table[id].metadata.claim.value.expiresAt.Some?
    requires planned.metadata.failures == s.table[id].metadata.failures
    ensures Disturbs(s, states, events, lease, id, AdminUnblock, planned)
  {
    var claim := s.table[id].metadata.claim.value;
    var end := claim.expiresAt.value;
    var e := Tick(if end <= s.now then 0 else end - s.now);
    var s1 := Next(s, e, lease);
    var e1 := RecoverEvent(id, s1.now);
    var s2 := Next(s1, e1, lease);
    assert s2.table[id] == Recovered(s.table[id], claim);
    Extends([s], [], e, lease);
    Extends([s] + [s1], [] + [e], e1, lease);
    states, events := [s] + [s1] + [s2], [] + [e] + [e1];
  }

  lemma BlockDisturbs(s: Sys, id: CardId, planned: Card, lease: nat) returns (states: seq<Sys>, events: seq<Event>)
    requires Inv(s) && id in s.table && s.table[id].status == Running
    requires s.table[id].metadata.claim.value.expiresAt.None?
    requires planned.metadata.failures == s.table[id].metadata.failures
    ensures Disturbs(s, states, events, lease, id, AdminUnblock, planned)
  {
    var claim := s.table[id].metadata.claim.value;
    var e := BlockEvent(id, claim.owner, claim.token, "TECHNICAL");
    assert IsTechnical("TECHNICAL") by {
      assert Strip("TECHNICAL") == "TECHNICAL" && Upper("TECHNICAL") == "TECHNICAL";
    }
    var s1 := Next(s, e, lease);
    assert s1.table[id] == BlockedBy(s.table[id], claim, "TECHNICAL");
    Extends([s], [], e, lease);
    states, events := [s] + [s1], [] + [e];
  }

  lemma RunningIsDisturbed(s: Sys, id: CardId, op: AdminOp, planned: Card, lease: nat)
    returns (states: seq<Sys>, events: seq<Event>)
    requires Inv(s) && id in s.table && s.table[id].status == Running
    requires planned.metadata.failures == s.table[id].metadata.failures || !op.AdminUnblock?
    ensures Disturbs(s, states, events, lease, id, op, planned)
  {
    if op.AdminUnblock? && s.table[id].metadata.claim.value.expiresAt.Some? {
      states, events := ExpiryDisturbs(s, id, planned, lease);
    } else if op.AdminUnblock? {
      states, events := BlockDisturbs(s, id, planned, lease);
    } else {
      states, events := CancelDisturbs(s, id, op, planned, lease);
    }
  }

  /** One step before a run. */
  lemma Prepends(s: Sys, e: Event, states: seq<Sys>, events: seq<Event>, lease: nat)
    requires Enabled(s, e) && Behaviour(states, events, lease) && states[0] == Next(s, e, lease)
    ensures Behaviour([s] + states, [e] + events, lease)
  {
    hide Next;
    hide Enabled;
    var all, steps := [s] + states, [e] + events;
    forall i | 0 <= i < |steps| ensures Enabled(all[i], steps[i]) && all[i + 1] == Next(all[i], steps[i], lease) {
      if i > 0 {
        assert all[i] == states[i - 1] && all[i + 1] == states[i] && steps[i] == events[i - 1];
      }
    }
  }

  lemma ReadyIsDisturbed(s: Sys, id: CardId, op: AdminOp, planned: Card, lease: nat)
    returns (states: seq<Sys>, events: seq<Event>)
    requires Inv(s) && id in s.table && s.table[id].status == Ready
    requires planned.metadata.failures == s.table[id].metadata.failures || !op.AdminUnblock?
    ensures Disturbs(s, states, events, lease, id, op, planned)
  {
    var token := FreshToken(s.issued);
    var e := ClaimEvent(id, "w", token);
    assert Strip("w") == "w";
    var s1 := Next(s, e, lease);
    assert s1.table[id] == Claimed(s.table[id], "w", token, s.now, lease);
    StepKeepsInv(s, e, lease);
    states, events := RunningIsDisturbed(s1, id, op, planned, lease);
    Prepends(s, e, states, events, lease);
    var all, steps := [s] + states, [e] + events;
    assert all[|steps|] == states[|events|];
    forall i | 0 <= i < |steps| ensures !steps[i].AdminWrite? {
      assert i > 0 ==> steps[i] == events[i - 1];
    }
    states, events := all, steps;
  }

  /** The second read and the write, after a disturbance: the written card is not what the operation
      gives on the card as it is. */
  lemma LostWrite(s: Sys, id: CardId, op: AdminOp, planned: Card, lease: nat)
    requires s.lessee == Prepared(id, planned) && id in s.table && s.table[id].id == id
    requires AdminResult(s.table[id], op).metadata != planned.metadata
    ensures Enabled(s, AdminReread) && Enabled(Next(s, AdminReread, lease), AdminWrite)
    ensures var read := Next(s, AdminReread, lease);
            var after := Next(read, AdminWrite, lease);
            read.table == s.table && after.table != s.table[id := AdminResult(s.table[id], op)]
  {
    var after := Next(Next(s, AdminReread, lease), AdminWrite, lease);
    assert id in after.table && after.table[id].metadata == planned.metadata;
  }

  /** A card that a worker has or can have: some interleaving loses the worker's step. */
  lemma WorkIsLost(s: Sys, id: CardId, op: AdminOp, lease: nat) returns (states: seq<Sys>, events: seq<Event>)
    requires Inv(s) && Enabled(s, AdminRead(id, op)) && IsAtWork(s.table[id])
    ensures IsAdminRun(states, events, lease, id, op) && states[0] == s && !WritesAtomically(states, id, op)
  {
    var read, planned := AdminRead(id, op), AdminResult(s.table[id], op);
    var s1 := Next(s, read, lease);
    StepKeepsInv(s, read, lease);
    if s.table[id].status == Running {
      states, events := RunningIsDisturbed(s1, id, op, planned, lease);
    } else {
      states, events := ReadyIsDisturbed(s1, id, op, planned, lease);
    }
    states, events := CloseRun(s, id, op, lease, states, events);
  }

  lemma CloseRun(s: Sys, id: CardId, op: AdminOp, lease: nat, between: seq<Sys>, steps: seq<Event>)
    returns (states: seq<Sys>, events: seq<Event>)
    requires Enabled(s, AdminRead(id, op))
    requires Disturbs(Next(s, AdminRead(id, op), lease), between, steps, lease, id, op, AdminResult(s.table[id], op))
    ensures IsAdminRun(states, events, lease, id, op) && states[0] == s && !WritesAtomically(states, id, op)
  {
    var read := AdminRead(id, op);
    var after := between[|steps|];
    LostWrite(after, id, op, AdminResult(s.table[id], op), lease);
    var reread := Next(after, AdminReread, lease);
    Prepends(s, read, between, steps, lease);
    var s0, e0 := [s] + between, [read] + steps;
    Extends(s0, e0, AdminReread, lease);
    var s1, e1 := s0 + [reread], e0 + [AdminReread];
    Extends(s1, e1, AdminWrite, lease);
    states, events := s1 + [Next(reread, AdminWrite, lease)], e1 + [AdminWrite];
    NoEarlierWrite(read, steps);
  }

  lemma NoEarlierWrite(read: Event, steps: seq<Event>)
    requires !read.AdminWrite? && forall i :: 0 <= i < |steps| ==> !steps[i].AdminWrite?
    ensures var events := [read] + steps + [AdminReread] + [AdminWrite];
            && events[0] == read && forall i :: 0 <= i < |events| - 1 ==> !events[i].AdminWrite?
  {
  }

  /** An administrative operation is atomic under every interleaving exactly when the card is neither
      READY nor RUNNING as it starts. */
  lemma AdminWriteIsAtomicIff(s: Sys, id: CardId, op: AdminOp, lease: nat)
    requires Inv(s) && Enabled(s, AdminRead(id, op))
    ensures IsAlwaysAtomic(s, id, op, lease) <==> s.table[id].status != Ready && s.table[id].status != Running
  {
    if IsAtWork(s.table[id]) {
      var states, events := WorkIsLost(s, id, op, lease);
    } else {
      forall states, events | IsAdminRun(states, events, lease, id, op) && states[0] == s
        ensures WritesAtomically(states, id, op)
      {
        IdleCardIsSafe(states, events, lease, id, op);
      }
    }
  }

  // ---------------------------------------------------------------- a lost completion

  /** An operation during which a worker claims the card and completes it. */
  function LosingEvents(id: CardId, op: AdminOp, owner: string, token: string, proof: seq<ProofItem>): seq<Event> {
    [AdminRead(id, op), ClaimEvent(id, owner, token), CompleteEvent(id, owner, token, proof), AdminReread, AdminWrite]
  }

  ghost predicate LosesCompletion(s: Sys, states: seq<Sys>, id: CardId, op: AdminOp, proof: seq<ProofItem>)
    requires id in s.table && |states| == 6
  {
    && states[0] == s && id in states[3].table && id in states[5].table
    && states[3].table[id].status == Done && states[3].table[id].metadata.proof == Some(proof)
    && states[5].table[id] == AdminResult(s.table[id], op)
  }

  /** A worker claims a READY card and completes it at once. */
  lemma ClaimThenComplete(s: Sys, id: CardId, owner: string, token: string, proof: seq<ProofItem>, lease: nat)
    requires id in s.table && s.table[id].status == Ready && s.table[id].metadata.claim.None?
    requires Strip(owner) != "" && token != "" && token !in s.issued && lease > 0
    ensures Enabled(s, ClaimEvent(id, owner, token))
    ensures Enabled(Next(s, ClaimEvent(id, owner, token), lease), CompleteEvent(id, owner, token, proof))
    ensures var claimed := Next(s, ClaimEvent(id, owner, token), lease);
            var done := Next(claimed, CompleteEvent(id, owner, token, proof), lease);
            && done.lessee == s.lessee && id in done.table
            && done.table[id].id == s.table[id].id && done.table[id].labels == s.table[id].labels
            && done.table[id].agent == s.table[id].agent
            && done.table[id].status == Done && done.table[id].metadata.proof == Some(proof)
  {
    var claimed := Next(s, ClaimEvent(id, owner, token), lease);
    assert claimed.table[id] == Claimed(s.table[id], owner, token, s.now, lease);
  }

  lemma ReadStep(s: Sys, id: CardId, op: AdminOp, lease: nat)
    requires Inv(s) && Enabled(s, AdminRead(id, op)) && s.table[id].status == Ready
    ensures var s1 := Next(s, AdminRead(id, op), lease);
            s1.table == s.table && s1.issued == s.issued && s1.lessee == Prepared(id, AdminResult(s.table[id], op))
    ensures id in s.table && s.table[id].metadata.claim.None? && s.table[id].id == id
    ensures var planned := AdminResult(s.table[id], op); planned.id == id && planned.labels == s.table[id].labels
  {
  }

  /** The planned write goes through whatever has happened to the card since. */
  lemma LateWrite(s: Sys, id: CardId, planned: Card, lease: nat)
    requires s.lessee == Prepared(id, planned) && id in s.table && s.table[id].id == planned.id == id
    requires s.table[id].labels == planned.labels
    ensures Enabled(s, AdminReread) && Enabled(Next(s, AdminReread, lease), AdminWrite)
    ensures Next(Next(s, AdminReread, lease), AdminWrite, lease).table == s.table[id := planned]
  {
  }

  /** What is lost can be a finished result: whatever the operation, a READY card that is claimed and
      completed during it ends as if the worker had never been there. */
  lemma AdminWriteCanLoseCompletion(s: Sys, id: CardId, op: AdminOp, owner: string, token: string,
                                    proof: seq<ProofItem>, lease: nat)
    requires Inv(s) && Enabled(s, AdminRead(id, op)) && s.table[id].status == Ready
    requires Strip(owner) != "" && token != "" && token !in s.issued && lease > 0
    ensures exists states :: |states| == 6 && LosesCompletion(s, states, id, op, proof)
                             && Behaviour(states, LosingEvents(id, op, owner, token, proof), lease)
  {
    hide Next;
    hide Enabled;
    hide Inv;
    hide AdminResult;
    ReadStep(s, id, op, lease);
    var e1, e2, e3 := AdminRead(id, op), ClaimEvent(id, owner, token), CompleteEvent(id, owner, token, proof);
    var s1 := Next(s, e1, lease);
    ClaimThenComplete(s1, id, owner, token, proof, lease);
    var s2 := Next(s1, e2, lease);
    var s3 := Next(s2, e3, lease);
    LateWrite(s3, id, AdminResult(s.table[id], op), lease);
    var s4 := Next(s3, AdminReread, lease);
    var s5 := Next(s4, AdminWrite, lease);
    Extends([s], [], e1, lease);
    Extends([s] + [s1], [] + [e1], e2, lease);
    Extends([s] + [s1] + [s2], [] + [e1] + [e2], e3, lease);
    Extends([s] + [s1] + [s2] + [s3], [] + [e1] + [e2] + [e3], AdminReread, lease);
    Extends([s] + [s1] + [s2] + [s3] + [s4], [] + [e1] + [e2] + [e3] + [AdminReread], AdminWrite, lease);
    var states := [s] + [s1] + [s2] + [s3] + [s4] + [s5];
    assert LosingEvents(id, op, owner, token, proof) == [] + [e1] + [e2] + [e3] + [AdminReread] + [AdminWrite];
    assert LosesCompletion(s, states, id, op, proof);
  }
}
