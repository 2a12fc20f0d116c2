/** Every run of one participant's machine: a mutation in doubt blocks the next one until a report settles it. */
module ParticipantRuns {
  import opened Wrappers
  import opened ParticipantSchedule

  datatype Event = Begin(action: Action, commit: Commit, lease: nat) | Reply(response: Response) | Lose

  /** `commit` and `lease` matter to the two actions that take an argument. */
  function BeginAs(p: Participant, e: Event): Begun
    requires e.Begin?
  {
    match e.action
    case PrepareAction => BeginPrepare(p)
    case StatusAction => BeginStatus(p)
    case InstallAction => BeginInstall(p, e.commit)
    case ConfirmAction => BeginConfirm(p)
    case RenewAction => BeginLeaseRenew(p, e.lease)
    case AbortAction => BeginAbort(p)
    case CancelAction => BeginCancel(p)
  }

  function After(p: Participant, e: Event): Participant {
    match e
    case Begin(_, _, _) => if BeginAs(p, e).Ok? then BeginAs(p, e).value.0 else p
    case Reply(response) => AcceptResponse(p, response).0
    case Lose => AbandonPending(p).0
  }

  ghost predicate IsRun(run: seq<Participant>, events: seq<Event>) {
    |run| == |events| + 1 && forall k | 0 <= k < |events| :: run[k + 1] == After(run[k], events[k])
  }

  /** The mutation's outcome is unknown: lost, or answered by nothing that could be retained. */
  predicate InDoubt(p: Participant, e: Event) {
    p.pending.Some? && Mutates(p.pending.value) && (e.Lose? || (e.Reply? && After(p, e).reconciliationRequired))
  }

  /** A report was validated against the participant's identity, commit and progress, and is retained. */
  predicate Settles(p: Participant, e: Event) {
    && e.Reply? && p.pending.Some? && e.response.body.ReportBody?
    && var report := e.response.body.report;
       || (After(p, e).report == Some(report) && ValidReport(p, report)
           && (p.report.Some? ==> ReportAdvances(p.report.value, report)))
       || (After(p, e).report == Some(DEFAULT_REPORT) && ReplaceableForeignTerminal(p.descriptor, report)
           && p.report.None? && p.commit.None?)
  }

  lemma DoubtEndsBySettling(p: Participant, e: Event)
    requires p.reconciliationRequired && !After(p, e).reconciliationRequired
    ensures Settles(p, e)
  {
  }

  lemma {:induction false} DoubtLasts(run: seq<Participant>, events: seq<Event>, lost: nat, n: nat) returns (k: nat)
    requires IsRun(run, events) && lost < n <= |events| && InDoubt(run[lost], events[lost])
    requires !run[n].reconciliationRequired
    ensures lost < k < n && Settles(run[k], events[k])
    decreases n
  {
    hide Settles;
    if n - 1 > lost && !run[n - 1].reconciliationRequired {
      k := DoubtLasts(run, events, lost, n - 1);
    } else {
      k := n - 1;
      assert k > lost;
      DoubtEndsBySettling(run[k], events[k]);
    }
  }

  /** After a mutation fell in doubt no further mutation is begun before a report was validated and retained. */
  lemma DoubtBlocksMutations(run: seq<Participant>, events: seq<Event>, lost: nat, n: nat)
    requires IsRun(run, events) && lost < n < |events| && InDoubt(run[lost], events[lost])
    requires events[n].Begin? && Mutates(events[n].action) && BeginAs(run[n], events[n]).Ok?
    ensures exists k :: lost < k < n && Settles(run[k], events[k])
  {
    var k := DoubtLasts(run, events, lost, n);
  }

  /** A commit, once bound, is never replaced or forgotten. */
  lemma {:induction false} CommitIsBoundOnce(run: seq<Participant>, events: seq<Event>, i: nat, j: nat)
    requires IsRun(run, events) && i <= j <= |events| && run[i].commit.Some?
    ensures run[j].commit == run[i].commit
    decreases j
  {
    hide Phase, ValidReport, ReportAdvances, ReplaceableForeignTerminal;
    if i < j {
      CommitIsBoundOnce(run, events, i, j - 1);
    }
  }

  /** A refused reply never replaces what the machine knows: the retained report changes only by a settling one. */
  lemma ReportChangesOnlyBySettling(p: Participant, e: Event)
    ensures After(p, e).report != p.report ==> Settles(p, e)
  {
  }
}
