/**
 Issued epochs over re-arms and page reloads, and which frames they let through.
 */
module LiveEpochs {
  import opened Options
  import opened SubscribeWorker
  import opened LiveFrames
  import opened LiveService
  import opened LiveServiceSafety

  ghost predicate Increasing(issued: seq<Issued>) {
    forall i, j :: 0 <= i < j < |issued| ==> issued[i].epoch < issued[j].epoch
  }

  predicate AllBelow(issued: seq<Issued>, epoch: int) {
    forall i :: 0 <= i < |issued| ==> issued[i].epoch < epoch
  }

  /** Issued epochs increase, and neither the page's counter nor the persisted
      copy is behind the last of them. */
  ghost predicate IssueInv(s: System) {
    && Increasing(s.issued)
    && AllBelow(s.issued, s.epoch + 1)
    && (s.issued != [] ==> s.stored.Some? && AllBelow(s.issued, s.stored.value + 1))
  }

  predicate HasEpoch(run: Run) {
    run.Starting? || run.Consuming? || run.Settling?
  }

  /** `epoch` is the newest epoch among these for `key`. */
  ghost predicate Newest(issued: seq<Issued>, key: Key, epoch: int) {
    && Issued(key, epoch) in issued
    && forall x :: x in issued && x.key == key ==> x.epoch <= epoch
  }

  /** The epochs this page has issued. */
  function OnPage(s: System): seq<Issued> {
    if s.pageFrom <= |s.issued| then s.issued[s.pageFrom..] else []
  }

  ghost predicate PageInv(s: System) {
    s.pageFrom <= |s.issued| && AllBelow(OnPage(s), s.epoch + 1)
  }

  ghost predicate RunEpochOk(s: System, id: SupId)
    requires id in s.sups
  {
    HasEpoch(s.sups[id].run) ==> Newest(OnPage(s), s.sups[id].key, s.sups[id].run.epoch)
  }

  ghost predicate RunEpochInv(s: System) {
    forall id :: Alive(s, id) ==> RunEpochOk(s, id)
  }

  ghost predicate Persists(step: Step) {
    step.Try? ==> step.persists
  }

  ghost predicate AllPersist(run: seq<Step>) {
    forall step :: step in run ==> Persists(step)
  }

  // ----- Epochs increase -----

  lemma AttemptKeepsIssue(s: System, id: SupId)
    requires IssueInv(s) && CanAttempt(s, id)
    ensures IssueInv(DoAttempt(s, id, true))
  {
  }

  lemma StepKeepsIssue(s: System, step: Step)
    requires IssueInv(s) && Enabled(s, step) && Persists(step)
    ensures IssueInv(Apply(s, step))
  {
    match step {
      case Try(id, persists) => AttemptKeepsIssue(s, id);
      case Reload(now) =>
      case _ => assert SameIssue(s, Apply(s, step)) by { OthersKeepIssue(s, step); }
    }
  }

  ghost predicate SameIssue(s: System, s': System) {
    s'.issued == s.issued && s'.epoch == s.epoch && s'.stored == s.stored && s'.pageFrom == s.pageFrom
  }

  lemma OthersKeepIssue(s: System, step: Step)
    requires Enabled(s, step) && !step.Try? && !step.Reload?
    ensures SameIssue(s, Apply(s, step))
  {
  }

  /** After a reload the next epoch is above all issued so far exactly if the clock
      or the persisted counter has reached the last of them. */
  lemma ReloadAdvancesIff(s: System, now: int)
    requires s.issued != [] && Increasing(s.issued)
    ensures var last := s.issued[|s.issued| - 1].epoch;
            AllBelow(s.issued, DoReload(s, now).epoch + 1) <==>
            now >= last || (s.stored.Some? && s.stored.value >= last)
  {
    var last := s.issued[|s.issued| - 1];
    assert forall i :: 0 <= i < |s.issued| ==> s.issued[i].epoch <= last.epoch;
  }

  // ----- Only the newest epoch is heard -----

  lemma AttemptIssues(s: System, id: SupId, persists: bool)
    requires PageInv(s) && CanAttempt(s, id)
    ensures var s' := DoAttempt(s, id, persists);
            PageInv(s') && OnPage(s') == OnPage(s) + [Issued(s.sups[id].key, s.epoch + 1)]
  {
    var s' := DoAttempt(s, id, persists);
    assert OnPage(s') == OnPage(s) + [Issued(s.sups[id].key, s.epoch + 1)];
  }

  lemma AttemptKeepsRunEpochs(s: System, id: SupId, persists: bool)
    requires OwnerInv(s) && PageInv(s) && RunEpochInv(s) && CanAttempt(s, id)
    ensures RunEpochInv(DoAttempt(s, id, persists))
  {
    var s' := DoAttempt(s, id, persists);
    var key := s.sups[id].key;
    AttemptIssues(s, id, persists);
    assert Owner(s, key) == Some(id);
    assert OnPage(s')[|OnPage(s)|] == Issued(key, s.epoch + 1);
    assert forall x :: x in OnPage(s') <==> x in OnPage(s) || x == Issued(key, s.epoch + 1);
    forall other | Alive(s', other)
      ensures RunEpochOk(s', other)
    {
      if other != id {
        assert RunEpochOk(s, other);
        assert Owner(s, s.sups[other].key) == Some(other);
      }
    }
  }

  /** A step that issues nothing and gives no supervisor an epoch it had not. */
  ghost predicate KeepsRunEpochs(s: System, s': System) {
    (OnPage(s') == OnPage(s) || forall id :: !Alive(s', id)) && SupsKeepEpochs(s, s')
  }

  ghost predicate SupsKeepEpochs(s: System, s': System) {
    forall id :: Alive(s', id) && HasEpoch(s'.sups[id].run) ==>
      && Alive(s, id) && s'.sups[id].key == s.sups[id].key
      && HasEpoch(s.sups[id].run) && s'.sups[id].run.epoch == s.sups[id].run.epoch
  }

  lemma KeepingRunEpochs(s: System, s': System)
    requires RunEpochInv(s) && KeepsRunEpochs(s, s')
    ensures RunEpochInv(s')
  {
    forall id | Alive(s', id)
      ensures RunEpochOk(s', id)
    {
      if HasEpoch(s'.sups[id].run) {
        assert RunEpochOk(s, id);
      }
    }
  }

  lemma OwnStepsKeepSups(s: System, step: Step)
    requires Enabled(s, step) && IsOwnStep(step) && !step.Try?
    ensures SupsKeepEpochs(s, Apply(s, step))
  {
    match step {
      case Settle(id) => assert !HasEpoch(DoSettle(s, id).sups[id].run);
      case _ =>
    }
  }

  lemma OthersKeepSups(s: System, step: Step)
    requires Enabled(s, step) && !step.Try?
    ensures SupsKeepEpochs(s, Apply(s, step))
  {
    if IsOwnStep(step) {
      OwnStepsKeepSups(s, step);
    }
  }

  lemma OthersKeepRunEpochs(s: System, step: Step)
    requires PageInv(s) && Enabled(s, step) && !step.Try?
    ensures PageInv(Apply(s, step)) && KeepsRunEpochs(s, Apply(s, step))
  {
    OthersKeepSups(s, step);
    if step.Reload? {
      assert s.issued[|s.issued|..] == [];
    } else {
      OthersKeepIssue(s, step);
    }
  }

  lemma {:induction false} RunKeepsEpochs(s: System, run: seq<Step>, s': System)
    requires DisplayInv(s) && PageInv(s) && RunEpochInv(s) && Leads(s, run, s')
    ensures DisplayInv(s') && PageInv(s') && RunEpochInv(s')
    decreases |run|
  {
    if run != [] {
      var step, next := run[0], Apply(s, run[0]);
      StepKeepsDisplay(s, step);
      if step.Try? {
        AttemptIssues(s, step.sup, step.persists);
        AttemptKeepsRunEpochs(s, step.sup, step.persists);
      } else {
        OthersKeepRunEpochs(s, step);
        KeepingRunEpochs(s, next);
      }
      RunKeepsEpochs(next, run[1..], s');
    }
  }

  lemma {:induction false} RunKeepsIssue(s: System, run: seq<Step>, s': System)
    requires IssueInv(s) && Leads(s, run, s') && AllPersist(run)
    ensures IssueInv(s')
    decreases |run|
  {
    if run != [] {
      assert run[0] in run && Persists(run[0]);
      StepKeepsIssue(s, run[0]);
      RunKeepsIssue(Apply(s, run[0]), run[1..], s');
    }
  }

  /** Over every run whose epochs are persisted, whatever the clock reads at each
      reload and whatever was stored at first: each epoch issued is higher than all
      issued before it, on this page or an earlier one. */
  lemma EpochsStrictlyIncrease(now: int, stored: Option<int>, run: seq<Step>, s: System)
    requires Leads(FirstPage(now, stored), run, s) && AllPersist(run)
    ensures Increasing(s.issued)
  {
    RunKeepsIssue(FirstPage(now, stored), run, s);
  }

  /** Over every run, persisted or not: the queue may hold any envelope at any time,
      but only one that carries the newest epoch this page has issued for its key can
      change anything. */
  lemma SupersededFramesAreInert(now: int, stored: Option<int>, run: seq<Step>, s: System, step: Step)
    requires Leads(FirstPage(now, stored), run, s)
    requires step.TakeFrame? && Enabled(s, step) && !Newest(OnPage(s), step.key, step.epoch)
    ensures Apply(s, step) == s
  {
    RunKeepsEpochs(FirstPage(now, stored), run, s);
    assert RunEpochOk(s, step.sup);
  }

  /** And if every epoch was persisted, only the newest epoch ever issued for its key,
      by this page or an earlier one. */
  lemma EarlierPagesAreInert(now: int, stored: Option<int>, run: seq<Step>, s: System, step: Step)
    requires Leads(FirstPage(now, stored), run, s) && AllPersist(run)
    requires step.TakeFrame? && Enabled(s, step) && !Newest(s.issued, step.key, step.epoch)
    ensures Apply(s, step) == s
  {
    RunKeepsEpochs(FirstPage(now, stored), run, s);
    EpochsStrictlyIncrease(now, stored, run, s);
    if Newest(OnPage(s), step.key, step.epoch) {
      NewestOnPageIsNewest(s, step.key, step.epoch);
    } else {
      SupersededFramesAreInert(now, stored, run, s, step);
    }
  }

  lemma NewestOnPageIsNewest(s: System, key: Key, epoch: int)
    requires PageInv(s) && Increasing(s.issued) && Newest(OnPage(s), key, epoch)
    ensures Newest(s.issued, key, epoch)
  {
    var i :| s.pageFrom <= i < |s.issued| && s.issued[i] == Issued(key, epoch);
    forall x | x in s.issued && x.key == key
      ensures x.epoch <= epoch
    {
      var j :| 0 <= j < |s.issued| && s.issued[j] == x;
      if j >= s.pageFrom {
        assert OnPage(s)[j - s.pageFrom] == x;
      }
    }
  }

  // ----- An epoch that was not persisted -----

  ghost predicate Reached(first: System, s: System) {
    exists run :: Leads(first, run, s)
  }

  lemma {:induction false} LeadsFurther(s: System, run: seq<Step>, s': System, step: Step)
    requires Leads(s, run, s') && Enabled(s', step)
    ensures Leads(s, run + [step], Apply(s', step))
    decreases |run|
  {
    if run == [] {
      assert [step][1..] == [] && run + [step] == [step];
    } else {
      assert (run + [step])[1..] == run[1..] + [step];
      LeadsFurther(Apply(s, run[0]), run[1..], s', step);
    }
  }

  lemma ReachesFurther(first: System, s: System, step: Step)
    requires Reached(first, s) && Enabled(s, step)
    ensures Reached(first, Apply(s, step))
  {
    var run :| Leads(first, run, s);
    LeadsFurther(first, run, s, step);
  }

  /** A page with nothing configured yet adds a source, up to where its first attempt
      is about to issue an epoch. */
  lemma ReachesAttempt(first: System, s: System, key: Key) returns (s': System, id: SupId)
    requires Reached(first, s) && s.entries == map[] && s.sups == map[] && s.adding.NotAdding?
    ensures Reached(first, s') && CanAttempt(s', id)
    ensures s'.epoch == s.epoch && s'.issued == s.issued && s'.stored == s.stored
  {
    id := s.nextSup;
    ReachesFurther(first, s, Reset(key));
    var reset := DoReset(s, key);
    ReachesFurther(first, reset, Fork(true, true));
    var forked := DoFork(reset, true, true);
    ReachesFurther(first, forked, Register);
    var registered := DoRegister(forked);
    assert CanPick(registered, id, 0);
    ReachesFurther(first, registered, Pick(id, 0));
    s' := DoPick(registered, id, 0);
  }

  lemma ReachesNextPage(first: System, s: System, id: SupId, now: int) returns (s': System)
    requires Reached(first, s) && CanAttempt(s, id) && s.stored == None
    ensures Reached(first, s') && s'.entries == map[] && s'.sups == map[] && s'.adding.NotAdding?
    ensures s'.epoch == now && |s'.issued| == |s.issued| + 1 && s'.issued[|s.issued|].epoch == s.epoch + 1
  {
    ReachesFurther(first, s, Try(id, false));
    var tried := DoAttempt(s, id, false);
    ReachesFurther(first, tried, Reload(now));
    s' := DoReload(tried, now);
  }

  /** From a first page: an epoch that could not be persisted, a reload with the clock
      set back, and the next epoch is not above the first. */
  lemma LostEpochIsReissued(key: Key)
    ensures exists s :: Reached(FirstPage(1, None), s) && !Increasing(s.issued)
  {
    var first := FirstPage(1, None);
    assert Leads(first, [], first);
    var s, id := ReachesAttempt(first, first, key);
    var next := ReachesNextPage(first, s, id, 0);
    var s', id' := ReachesAttempt(first, next, key);
    ReachesFurther(first, s', Try(id', false));
    var last := DoAttempt(s', id', false);
    assert last.issued[0].epoch == 2 && last.issued[1].epoch == 1;
  }
}
