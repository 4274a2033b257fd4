/** Several stores in which every operation meets its guard: each of them opens at every moment. */
module FederationSound {
  import opened Records
  import opened Chains
  import opened StoreState
  import opened Pipeline
  import opened Index
  import opened PipelineLaws
  import opened Gc
  import opened Imports
  import opened Runs
  import opened Federation
  import opened FederationLaws

  // ---- Soundness and files on disk ----

  /** Records that no state names yet, or any more, keep a store open. */
  lemma SoundOnLargerDisk(small: Disk, big: Disk, s: State)
    requires Sound(Snap(small, s)) && Within(small, big) && NO_COMMIT !in big
    ensures Sound(Snap(big, s))
  {
    SoundMeans(Snap(small, s));
    forall k | k in s.tips.Keys
      ensures TipOk(big, s, k)
    {
      DescribeGrows(small, big, s.tips[k]);
    }
    assert AllTipsOk(big, s, s.tips.Keys);
    LargerPlaces(small, big, s);
    LargerCoherent(small, big, s);
    SoundMeans(Snap(big, s));
  }

  lemma LargerPlaces(small: Disk, big: Disk, s: State)
    requires IndexOk(small, s) && Within(small, big)
    ensures PlacesUnique(big, s)
  {
    RootsOnDisk(small, s);
    assert forall k :: k in s.locations ==> PlaceOf(big, s, k) == PlaceOf(small, s, k);
  }

  lemma SteadyOnLargerDisk(small: Disk, big: Disk, s: State)
    requires Steady(Snap(small, s)) && Within(small, big) && NO_COMMIT !in big
    ensures Steady(Snap(big, s))
  {
    SoundOnLargerDisk(small, big, s);
    forall id | id in s.retained
      ensures HasChain(big, id) && ImportStays(big, id)
    {
      StaysOnLargerDisk(small, big, id);
    }
  }

  lemma SteadyIgnoresProtection(disk: Disk, s: State, t: State)
    requires Steady(Snap(disk, s)) && t == s.(publication := t.publication, inbound := t.inbound)
    ensures Steady(Snap(disk, t))
  {
    SoundMeans(Snap(disk, s));
    forall k | k in t.tips.Keys
      ensures TipOk(disk, t, k)
    {
      assert TipOk(disk, s, k) && forall p :: Mounted(s, p, k) ==> Mounted(t, p, k);
    }
    assert AllTipsOk(disk, t, t.tips.Keys);
    GcKeepsShape(s, t);
    SamePlacesHere(disk, s, t);
    forall l | l in t.links
      ensures LinkCoherent(t, t.links[l])
    {
      assert LinkCoherent(s, s.links[l]);
    }
    SoundMeans(Snap(disk, t));
  }

  /** Steady, behind a quantifier that keeps proofs which only pass it on from unfolding it. */
  ghost predicate Tidy(snap: Snap) {
    forall n: nat :: Looking(n) ==> Steady(snap)
  }

  lemma TidyMeans(snap: Snap)
    ensures Tidy(snap) <==> Steady(snap)
  {
    assert Looking(0);
  }

  lemma TidyOnLargerDisk(small: Disk, big: Disk, s: State)
    requires Tidy(Snap(small, s)) && Within(small, big) && NO_COMMIT !in big
    ensures Tidy(Snap(big, s))
  {
    TidyMeans(Snap(small, s));
    SteadyOnLargerDisk(small, big, s);
    TidyMeans(Snap(big, s));
  }

  lemma TidyIgnoresProtection(disk: Disk, s: State, t: State)
    requires Tidy(Snap(disk, s)) && t == s.(publication := t.publication, inbound := t.inbound)
    ensures Tidy(Snap(disk, t))
  {
    TidyMeans(Snap(disk, s));
    SteadyIgnoresProtection(disk, s, t);
    TidyMeans(Snap(disk, t));
  }

  // ---- The invariant ----

  /** What a session will publish is steady. */
  ghost predicate PlansSteady(s: Session) {
    match s
    case Busy(_, _, _, after, _, _) => Tidy(after)
    case Crossing(_, _, before, after, _, _, _, _) => Tidy(before) && Tidy(after)
    case Watching(_, _, _) => true
  }

  ghost predicate AllSteady(sys: System) {
    && (forall p :: p in sys.sites ==> Tidy(SnapOf(sys.sites[p])))
    && (forall i :: i in sys.sessions ==> PlansSteady(sys.sessions[i]))
  }

  /** The guard of the operation that an action starts. */
  ghost predicate ActionGuard(sys: System, a: Action) {
    match a
    case Start(_, at, op, _) => at in sys.sites ==> Admissible(op, SnapOf(sys.sites[at]))
    case StartCross(_, consumer, _, node, _, _, _, _) => consumer in sys.sites ==>
      node in sys.sites[consumer].state.tips
    case _ => true
  }

  lemma NoEmptyRecord(snap: Snap)
    requires Tidy(snap)
    ensures NO_COMMIT !in snap.disk
  {
    TidyMeans(snap);
    SoundMeans(snap);
  }

  lemma MergedSteady(site: Site, s: Session)
    requires s.Busy? && Tidy(SnapOf(site)) && Tidy(s.after) && Agree(site.disk, s.after.disk)
    ensures Tidy(Snap(site.disk + s.after.disk, site.state))
  {
    NoEmptyRecord(SnapOf(site));
    NoEmptyRecord(s.after);
    MergedDisk(site.disk, s.after.disk);
    TidyOnLargerDisk(site.disk, site.disk + s.after.disk, site.state);
  }

  lemma PlannedFacts(sys: System, sid: nat)
    requires Good(sys) && IsBusy(sys, sid, Planned)
    ensures var s := sys.sessions[sid]; Agree(sys.sites[s.at].disk, s.after.disk)
  {
    SessionOfGood(sys, sid);
  }

  lemma RecordedFacts(sys: System, sid: nat)
    requires Good(sys) && IsBusy(sys, sid, Recorded)
    ensures var s := sys.sessions[sid]; Within(s.after.disk, sys.sites[s.at].disk)
  {
    SessionOfGood(sys, sid);
    MergedDisk(sys.sessions[sid].before.disk, sys.sessions[sid].after.disk);
  }

  lemma PublishedFacts(sys: System, sid: nat)
    requires Good(sys) && IsBusy(sys, sid, Published)
    ensures var s := sys.sessions[sid];
      Within(s.after.disk, sys.sites[s.at].disk) && sys.sites[s.at].state == s.after.state
  {
    SessionOfGood(sys, sid);
  }

  lemma SelectedFacts(sys: System, sid: nat)
    requires Good(sys) && IsCrossing(sys, sid, Selected)
    ensures var s := sys.sessions[sid]; SnapOf(sys.sites[s.consumer]) == s.before && Within(s.before.disk, s.after.disk)
  {
    SessionOfGood(sys, sid);
  }

  lemma WrittenFacts(sys: System, sid: nat)
    requires Good(sys) && IsCrossing(sys, sid, Written)
    ensures var s := sys.sessions[sid]; sys.sites[s.consumer].disk == s.after.disk
  {
    SessionOfGood(sys, sid);
  }

  lemma WriteRecordSteady(sys: System, sid: nat)
    requires Good(sys) && IsBusy(sys, sid, Planned) && PlansSteady(sys.sessions[sid])
    requires Tidy(SnapOf(sys.sites[sys.sessions[sid].at]))
    ensures var at := sys.sessions[sid].at; Tidy(SnapOf(Recording(sys, sid).sites[at]))
  {
    PlannedFacts(sys, sid);
    var s := sys.sessions[sid];
    MergedSteady(sys.sites[s.at], s);
  }

  lemma SwapSteady(sys: System, sid: nat)
    requires Good(sys) && IsBusy(sys, sid, Recorded) && PlansSteady(sys.sessions[sid])
    requires Tidy(SnapOf(sys.sites[sys.sessions[sid].at]))
    ensures var at := sys.sessions[sid].at; Tidy(SnapOf(Swapping(sys, sid).sites[at]))
  {
    RecordedFacts(sys, sid);
    var s := sys.sessions[sid];
    NoEmptyRecord(SnapOf(sys.sites[s.at]));
    TidyOnLargerDisk(s.after.disk, sys.sites[s.at].disk, s.after.state);
  }

  lemma DeleteSteady(sys: System, sid: nat, id: Id)
    requires Good(sys) && IsBusy(sys, sid, Published) && PlansSteady(sys.sessions[sid])
    requires Collected(sys.sessions[sid], id)
    requires Tidy(SnapOf(sys.sites[sys.sessions[sid].at]))
    ensures var at := sys.sessions[sid].at; Tidy(SnapOf(Deleting(sys, sid, id).sites[at]))
  {
    PublishedFacts(sys, sid);
    var s := sys.sessions[sid];
    var site := sys.sites[s.at];
    NoEmptyRecord(SnapOf(site));
    TidyOnLargerDisk(s.after.disk, site.disk - {id}, site.state);
  }

  lemma SelectSteady(site: Site, credential: Id)
    requires Tidy(SnapOf(site))
    ensures Tidy(SnapOf(AlsoSelecting(site, credential)))
  {
    TidyIgnoresProtection(site.disk, site.state, AlsoSelected(site.state, credential));
  }

  lemma WriteLinkSteady(sys: System, sid: nat)
    requires Good(sys) && IsCrossing(sys, sid, Selected) && PlansSteady(sys.sessions[sid])
    ensures var at := sys.sessions[sid].consumer; Tidy(SnapOf(WritingLink(sys, sid).sites[at]))
  {
    SelectedFacts(sys, sid);
    var s := sys.sessions[sid];
    NoEmptyRecord(s.after);
    TidyOnLargerDisk(s.before.disk, s.after.disk, s.before.state);
  }

  lemma SwapLinkSteady(sys: System, sid: nat)
    requires Good(sys) && IsCrossing(sys, sid, Written) && PlansSteady(sys.sessions[sid])
    ensures var at := sys.sessions[sid].consumer; Tidy(SnapOf(SwappingLink(sys, sid).sites[at]))
  {
    WrittenFacts(sys, sid);
  }

  /** What a session plans stays what it planned. */
  lemma PlansStaySteady(sys: System, a: Action, next: System, i: nat)
    requires AllSteady(sys) && Act(sys, a, next) && i in next.sessions
    requires !a.Start? && !a.StartGc? && !a.StartCross?
    ensures PlansSteady(next.sessions[i])
  {
    if i in sys.sessions {
      assert PlansSteady(sys.sessions[i]);
    }
  }

  lemma StepKeepsTidy(op: Op, a: Snap, b: Snap)
    requires Tidy(a) && Step(op, a, b) && Admissible(op, a)
    ensures Tidy(b)
  {
    TidyMeans(a);
    StepKeepsSteady(op, a, b);
    TidyMeans(b);
  }

  lemma NewPlanSteady(sys: System, a: Action, next: System, i: nat)
    requires Good(sys) && AllSteady(sys) && Act(sys, a, next) && ActionGuard(sys, a) && i in next.sessions
    requires a.Start? || a.StartGc? || a.StartCross?
    ensures PlansSteady(next.sessions[i])
  {
    if i != a.sid {
      assert i in sys.sessions && PlansSteady(sys.sessions[i]);
    } else {
      match a {
        case Start(_, at, op, after) => StepKeepsTidy(op, SnapOf(sys.sites[at]), after);
        case StartGc(sid, others, orphans, after) =>
          var w := sys.sessions[sid];
          StepKeepsTidy(Sweep(HeldVersions(w.seen, orphans), orphans), SnapOf(sys.sites[w.at]), after);
        case StartCross(_, consumer, _, node, terms, record, _, _) =>
          var before := SnapOf(sys.sites[consumer]);
          StepKeepsTidy(TiePeer(node, terms, record), before, WithLink(before, node, terms, record));
      }
    }
  }

  lemma ActKeepsSteady(sys: System, a: Action, next: System)
    requires Good(sys) && AllSteady(sys) && Act(sys, a, next) && ActionGuard(sys, a)
    ensures AllSteady(next)
  {
    forall i | i in next.sessions
      ensures PlansSteady(next.sessions[i])
    {
      if a.Start? || a.StartGc? || a.StartCross? {
        NewPlanSteady(sys, a, next, i);
      } else {
        PlansStaySteady(sys, a, next, i);
      }
    }
    forall p | p in next.sites
      ensures Tidy(SnapOf(next.sites[p]))
    {
      SitesStaySteady(sys, a, next, p);
    }
  }

  lemma SitesStaySteady(sys: System, a: Action, next: System, p: StoreId)
    requires Good(sys) && AllSteady(sys) && Act(sys, a, next) && p in next.sites
    ensures Tidy(SnapOf(next.sites[p]))
  {
    assert p in sys.sites && Tidy(SnapOf(sys.sites[p]));
    if a.sid in sys.sessions {
      assert PlansSteady(sys.sessions[a.sid]);
    }
    SiteStaysSteady(sys, a, next, p);
  }

  lemma SiteStaysSteady(sys: System, a: Action, next: System, p: StoreId)
    requires Good(sys) && Act(sys, a, next) && p in sys.sites && p in next.sites && Tidy(SnapOf(sys.sites[p]))
    requires a.sid in sys.sessions ==> PlansSteady(sys.sessions[a.sid])
    ensures Tidy(SnapOf(next.sites[p]))
  {
    if SnapOf(next.sites[p]) != SnapOf(sys.sites[p]) {
      match a {
        case WriteRecord(sid) => WriteRecordSteady(sys, sid);
        case Swap(sid) => SwapSteady(sys, sid);
        case DeleteRecord(sid, id) => DeleteSteady(sys, sid, id);
        case SelectCredential(sid) => SelectSteady(sys.sites[p], sys.sessions[sid].credential);
        case WriteLink(sid) => WriteLinkSteady(sys, sid);
        case SwapLink(sid) => SwapLinkSteady(sys, sid);
        case _ =>
      }
    }
  }

  // ---- Histories ----

  /** Every operation started before step n met its guard. */
  ghost predicate AllActionsGuarded(history: seq<System>, actions: seq<Action>, n: nat)
    requires n <= |actions| && |history| == |actions| + 1
  {
    forall j :: 0 <= j < n ==> ActionGuard(history[j], actions[j])
  }

  lemma NewIsSteady(sys: System)
    requires Fresh0(sys)
    ensures AllSteady(sys)
  {
    EmptyIsOk();
    SoundMeans(Snap(map[], EMPTY_STATE));
    TidyMeans(Snap(map[], EMPTY_STATE));
  }

  lemma LastGuarded(history: seq<System>, actions: seq<Action>, n: nat)
    requires 0 < n <= |actions| && |history| == |actions| + 1 && AllActionsGuarded(history, actions, n)
    ensures AllActionsGuarded(history, actions, n - 1) && ActionGuard(history[n - 1], actions[n - 1])
  {
  }

  lemma HistoryStep(history: seq<System>, actions: seq<Action>, i: nat)
    requires IsHistory(history, actions) && i < |actions| && ActionGuard(history[i], actions[i])
    requires AllSteady(history[i])
    ensures AllSteady(history[i + 1])
  {
    HistoryIsGood(history, actions, i);
    assert ActAt(history, actions, i);
    ActKeepsSteady(history[i], actions[i], history[i + 1]);
  }

  lemma {:induction false} HistoryIsSteady(history: seq<System>, actions: seq<Action>, i: nat)
    requires IsHistory(history, actions) && i < |history| && AllActionsGuarded(history, actions, i)
    ensures AllSteady(history[i])
    decreases i
  {
    if i == 0 {
      NewIsSteady(history[0]);
    } else {
      LastGuarded(history, actions, i);
      HistoryIsSteady(history, actions, i - 1);
      HistoryStep(history, actions, i - 1);
    }
  }

  /**
   * If every operation met its guard when it started, every store on disk opens at every moment,
   * whatever is in progress and whatever has crashed.
   */
  lemma StoresAlwaysSound(history: seq<System>, actions: seq<Action>, i: nat, p: StoreId)
    requires IsHistory(history, actions) && i < |history| && AllActionsGuarded(history, actions, i)
    requires p in history[i].sites
    ensures Sound(SnapOf(history[i].sites[p])) && Opens(history[i].sites[p])
  {
    HistoryIsSteady(history, actions, i);
    TidyMeans(SnapOf(history[i].sites[p]));
    SoundMeans(SnapOf(history[i].sites[p]));
  }

  /** A store that does not open has been broken by an operation whose guard failed when it started. */
  lemma ClosedStoreWasBroken(history: seq<System>, actions: seq<Action>, i: nat, p: StoreId) returns (j: nat)
    requires IsHistory(history, actions) && i < |history| && p in history[i].sites && !Opens(history[i].sites[p])
    ensures j < i && !ActionGuard(history[j], actions[j])
  {
    if AllActionsGuarded(history, actions, i) {
      StoresAlwaysSound(history, actions, i, p);
    }
    j :| 0 <= j < i && !ActionGuard(history[j], actions[j]);
  }
}
