/** What holds of every file that the archive agrees to open, wherever it comes from
    (src/authenticated_fixture.rs). */
module ArchiveReopening {
  import opened Base
  import opened NativeTransaction
  import opened NativeTransfer
  import opened Archive
  import opened ArchiveStorage
  import opened ArchiveOwner
  import opened ArchiveRuns
  import opened ArchiveRules
  import ArchiveAudit
  import WorkerNode

  function RealRules(p: Policy): Rules {
    RulesFor(AuthenticatorFor(p.context), p)
  }

  /** A process around a file that no owner has opened yet. */
  function Closed(d: Disk, seats: nat, next: u64): World {
    World(d, seq(seats, _ => Vacated), next, {}, {})
  }

  /** From any file that the audit accepts: after any run it is auditable, and any further run only appends. */
  lemma AppendOnlyFromAnyFile(k: Rules, d: Disk, seats: nat, next: u64, before: seq<Event>, after: seq<Event>)
    requires Lawful(k) && PolicyAnchored(k.policy) && Load(k, d, None).Ok?
    ensures var w := Run(k, Closed(d, seats, next), before);
      && RecordsOn(k, d) <= RecordsOn(k, w.disk)
      && Load(k, w.disk, None).Ok? && RecordsOn(k, w.disk) <= RecordsOn(k, Run(k, w, after).disk)
  {
    var w := Closed(d, seats, next);
    var h := ArchiveAudit.LoadedIsStored(k, d, None);
    assert Inv(k, w, h);
    HistoryOnlyGrows(k, w, h, before);
    var h' := RunKeeps(k, w, h, before);
    HistoryOnlyGrows(k, Run(k, w, before), h', after);
  }

  /** The real audit accepts a file exactly if the file stands for a history of authenticated, executed
      envelopes. */
  lemma RealAuditIsExact(p: Policy, d: Disk)
    requires PolicyAnchored(p)
    ensures Load(RealRules(p), d, None).Ok? <==> exists h :: Stored(RealRules(p), d, h)
  {
    RulesAreLawful(p);
    ArchiveAudit.AuditIsExact(RealRules(p), d);
  }

  /** In every file the real audit accepts, balances plus burns equal those of the seeds. */
  lemma AuditedFileConserves(p: Policy, d: Disk)
    requires PolicyAnchored(p) && Load(RealRules(p), d, None).Ok?
    ensures TotalBalance(d.State()) + d.State().feesBurnedTotal
      == TotalBalance(p.initial) + p.initial.feesBurnedTotal
  {
    var auth := AuthenticatorFor(p.context);
    AuthenticationIsFaithful(p.context);
    WorkerNode.RealRulesExecute(auth, p);
    RulesAreLawful(p);
    var h := ArchiveAudit.LoadedIsStored(RealRules(p), d, None);
    WorkerNode.HistoryConserves(RealRules(p), auth, p, h);
  }
}
